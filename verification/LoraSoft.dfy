/**
 The soft-decision Hamming decoder (`lora_hamming_decode_soft`), over real-valued
 log-likelihood ratios: a positive value speaks for a one, its magnitude is the
 confidence.  It scores all sixteen codewords and takes the first best one.
 */
module LoraSoft {
  import opened Bits
  import opened LoraHamming

  // Table entries, most significant bit first.
  const CODEWORDS: seq<seq<bool>> := [
    [false, false, false, false, false, false, false, false], // 0
    [false, false, false, true, false, true, true, true], // 23
    [false, false, true, false, true, true, false, true], // 45
    [false, false, true, true, true, false, true, false], // 58
    [false, true, false, false, true, true, true, false], // 78
    [false, true, false, true, true, false, false, true], // 89
    [false, true, true, false, false, false, true, true], // 99
    [false, true, true, true, false, true, false, false], // 116
    [true, false, false, false, true, false, true, true], // 139
    [true, false, false, true, true, true, false, false], // 156
    [true, false, true, false, false, true, true, false], // 166
    [true, false, true, true, false, false, false, true], // 177
    [true, true, false, false, false, true, false, true], // 197
    [true, true, false, true, false, false, true, false], // 210
    [true, true, true, false, true, false, false, false], // 232
    [true, true, true, true, true, true, true, true]  // 255
  ]

  const CODEWORDS_CR5: seq<seq<bool>> := [
    [false, false, false, false, false, false, false, false], // 0
    [false, false, false, true, true, false, false, false], // 24
    [false, false, true, false, true, false, false, false], // 40
    [false, false, true, true, false, false, false, false], // 48
    [false, true, false, false, true, false, false, false], // 72
    [false, true, false, true, false, false, false, false], // 80
    [false, true, true, false, false, false, false, false], // 96
    [false, true, true, true, true, false, false, false], // 120
    [true, false, false, false, true, false, false, false], // 136
    [true, false, false, true, false, false, false, false], // 144
    [true, false, true, false, false, false, false, false], // 160
    [true, false, true, true, true, false, false, false], // 184
    [true, true, false, false, false, false, false, false], // 192
    [true, true, false, true, true, false, false, false], // 216
    [true, true, true, false, true, false, false, false], // 232
    [true, true, true, true, false, false, false, false]  // 240
  ]

  // The first `cr` bits of table entry n.
  function CodeBits(n: nat, cr: nat): (cw: seq<bool>)
    requires n < 16 && 5 <= cr <= 8
    ensures |cw| == cr
  {
    (if cr == 5 then CODEWORDS_CR5[n] else CODEWORDS[n])[..cr]
  }

  // The nibble a table index stands for: its bits reversed.
  function NibbleOf(n: nat): Nibble
    requires n < 16
  {
    [n / 8 % 2 == 1, n / 4 % 2 == 1, n / 2 % 2 == 1, n % 2 == 1]
  }

  function IndexOf(n: Nibble): (i: nat)
    ensures i < 16 && NibbleOf(i) == n
  {
    8 * Unit(n[0]) + 4 * Unit(n[1]) + 2 * Unit(n[2]) + Unit(n[3])
  }

  function Abs(x: real): real {
    if x < 0.0 then -x else x
  }

  function Contribution(l: real, bit: bool): real {
    if (bit && l > 0.0) || (!bit && l < 0.0) then Abs(l) else -Abs(l)
  }

  // The agreement between the received values and a codeword.
  function Score(llrs: seq<real>, cw: seq<bool>): real
    requires |llrs| == |cw|
  {
    if cw == [] then 0.0
    else Score(llrs[..|cw| - 1], cw[..|cw| - 1]) + Contribution(llrs[|cw| - 1], cw[|cw| - 1])
  }

  lemma LowRows(n: nat)
    requires 0 <= n < 8
    ensures CODEWORDS[n] == Encode(NibbleOf(n), 8) && CODEWORDS_CR5[n][..5] == Encode(NibbleOf(n), 5)
  {
    if n == 0 {} else if n == 1 {} else if n == 2 {} else if n == 3 {} else
    if n == 4 {} else if n == 5 {} else if n == 6 {} else { assert n == 7; }
  }

  lemma HighRows(n: nat)
    requires 8 <= n < 16
    ensures CODEWORDS[n] == Encode(NibbleOf(n), 8) && CODEWORDS_CR5[n][..5] == Encode(NibbleOf(n), 5)
  {
    if n == 8 {} else if n == 9 {} else if n == 10 {} else if n == 11 {} else
    if n == 12 {} else if n == 13 {} else if n == 14 {} else { assert n == 15; }
  }

  // The two tables hold the transmitter's codewords.
  lemma TableIsCode(n: nat, cr: nat)
    requires n < 16 && 5 <= cr <= 8
    ensures CodeBits(n, cr) == Encode(NibbleOf(n), cr)
  {
    if n < 8 {
      LowRows(n);
    } else {
      HighRows(n);
    }
    if cr > 5 {
      ShortenedCode(NibbleOf(n), cr);
    }
  }

  lemma ShortenedCode(n: Nibble, cr: nat)
    requires 6 <= cr <= 8
    ensures Encode(n, 8)[..cr] == Encode(n, cr)
  {
    EncodeBits(n, 8);
    EncodeBits(n, cr);
    forall i | 0 <= i < cr ensures Encode(n, 8)[i] == Encode(n, cr)[i] {}
  }

  // ---- The decoder takes the first codeword of maximal score ----

  predicate IsCode(code: seq<seq<bool>>, cr: nat) {
    |code| == 16 && forall n :: 0 <= n < 16 ==> |code[n]| == cr
  }

  function CodeTable(cr: nat): (code: seq<seq<bool>>)
    requires 5 <= cr <= 8
    ensures IsCode(code, cr)
  {
    seq(16, n requires 0 <= n < 16 => CodeBits(n, cr))
  }

  ghost predicate FirstBest(llrs: seq<real>, code: seq<seq<bool>>, best: nat)
    requires IsCode(code, |llrs|) && best < 16
  {
    && (forall n :: 0 <= n < 16 ==> Score(llrs, code[n]) <= Score(llrs, code[best]))
    && (forall n :: 0 <= n < best ==> Score(llrs, code[n]) < Score(llrs, code[best]))
  }

  // The best of codewords 0 to n.
  function BestUpTo(llrs: seq<real>, code: seq<seq<bool>>, n: nat): (best: nat)
    requires IsCode(code, |llrs|) && n < |code|
    ensures best <= n
  {
    if n == 0 then 0
    else
      var best := BestUpTo(llrs, code, n - 1);
      if Score(llrs, code[n]) > Score(llrs, code[best]) then n else best
  }

  function SoftNibble(llrs: seq<real>): Nibble
    requires 5 <= |llrs| <= 8
  {
    var code := CodeTable(|llrs|);
    NibbleOf(BestUpTo(llrs, code, |code| - 1))
  }

  lemma {:induction false} BestUpToIsBest(llrs: seq<real>, code: seq<seq<bool>>, n: nat)
    requires IsCode(code, |llrs|) && n < |code|
    ensures var best := BestUpTo(llrs, code, n);
      && (forall k :: 0 <= k <= n ==> Score(llrs, code[k]) <= Score(llrs, code[best]))
      && (forall k :: 0 <= k < best ==> Score(llrs, code[k]) < Score(llrs, code[best]))
  {
    if n > 0 {
      BestUpToIsBest(llrs, code, n - 1);
    }
  }

  // Exactly one index is the first best.
  lemma FirstBestIff(llrs: seq<real>, code: seq<seq<bool>>, i: nat)
    requires IsCode(code, |llrs|) && i < 16
    ensures FirstBest(llrs, code, i) <==> i == BestUpTo(llrs, code, |code| - 1)
  {
    BestUpToIsBest(llrs, code, |code| - 1);
    var best := BestUpTo(llrs, code, |code| - 1);
    assert Score(llrs, code[i]) <= Score(llrs, code[best]);
  }

  method ComputeScore(llrs: seq<real>, code: seq<bool>) returns (p: real)
    requires |llrs| == |code|
    ensures p == Score(llrs, code)
  {
    p := 0.0;
    for j := 0 to |code|
      invariant p == Score(llrs[..j], code[..j])
    {
      assert llrs[..j + 1][..j] == llrs[..j] && code[..j + 1][..j] == code[..j];
      p := p + Contribution(llrs[j], code[j]);
    }
    assert llrs[..|code|] == llrs && code[..|code|] == code;
  }

  // -1e30f
  const LOWEST := -1000000000000000000000000000000.0

  // The loop over the sixteen codewords, given that some score exceeds where it starts.
  method FindBest(llrs: seq<real>, code: seq<seq<bool>>) returns (best: nat)
    requires IsCode(code, |llrs|) && exists n :: 0 <= n < 16 && Score(llrs, code[n]) >= 0.0
    ensures best < 16 && FirstBest(llrs, code, best)
  {
    var bestP;
    best, bestP := 0, LOWEST;
    for n := 0 to 16
      invariant best < 16 && (bestP == LOWEST || (best < n && bestP == Score(llrs, code[best])))
      invariant forall k :: 0 <= k < n ==> Score(llrs, code[k]) <= bestP
      invariant bestP > LOWEST ==> forall k :: 0 <= k < best ==> Score(llrs, code[k]) < bestP
    {
      var p := ComputeScore(llrs, code[n]);
      if p > bestP {
        bestP, best := p, n;
      }
    }
  }

  lemma TableHasNonNegative(llrs: seq<real>)
    requires 5 <= |llrs| <= 8
    ensures exists n :: 0 <= n < 16 && Score(llrs, CodeTable(|llrs|)[n]) >= 0.0
  {
    SomeScoreIsNonNegative(llrs);
    var code := CodeTable(|llrs|);
    assert Score(llrs, code[0]) >= 0.0 || Score(llrs, code[1]) >= 0.0
        || Score(llrs, code[14]) >= 0.0 || Score(llrs, code[15]) >= 0.0;
  }

  method SoftDecode(llrs: seq<real>) returns (out: Nibble)
    requires 5 <= |llrs| <= 8
    ensures out == SoftNibble(llrs)
  {
    TableHasNonNegative(llrs);
    var best := FindBest(llrs, CodeTable(|llrs|));
    FirstBestIff(llrs, CodeTable(|llrs|), best);
    out := NibbleOf(best);
  }

  // A score is the correlation of the received values with the codeword's signs.
  lemma ContributionIsSigned(l: real, bit: bool)
    ensures Contribution(l, bit) == if bit then l else -l
  {}

  function Signed(l: real, bit: bool): real {
    if bit then l else -l
  }

  lemma {:induction false} OppositeScores(llrs: seq<real>, a: seq<bool>, b: seq<bool>)
    requires |llrs| == |a| == |b| && forall i :: 0 <= i < |a| ==> a[i] != b[i]
    ensures Score(llrs, a) + Score(llrs, b) == 0.0
  {
    if a != [] {
      var n := |a| - 1;
      OppositeScores(llrs[..n], a[..n], b[..n]);
      ContributionIsSigned(llrs[n], a[n]);
      ContributionIsSigned(llrs[n], b[n]);
    }
  }

  lemma ComplementaryCodes(cr: nat)
    requires 6 <= cr <= 8
    ensures forall i :: 0 <= i < cr ==> !CodeBits(0, cr)[i] && CodeBits(15, cr)[i]
  {
    assert CODEWORDS[0] == [false, false, false, false, false, false, false, false];
    assert CODEWORDS[15] == [true, true, true, true, true, true, true, true];
  }

  lemma BalancedCodes()
    ensures CodeBits(0, 5) == [false, false, false, false, false]
    ensures CodeBits(15, 5) == [true, true, true, true, false]
    ensures CodeBits(1, 5) == [false, false, false, true, true]
    ensures CodeBits(14, 5) == [true, true, true, false, true]
  {}

  lemma SomeScoreIsNonNegative(llrs: seq<real>)
    requires 5 <= |llrs| <= 8
    ensures Score(llrs, CodeBits(0, |llrs|)) >= 0.0 || Score(llrs, CodeBits(1, |llrs|)) >= 0.0
         || Score(llrs, CodeBits(14, |llrs|)) >= 0.0 || Score(llrs, CodeBits(15, |llrs|)) >= 0.0
  {
    if |llrs| > 5 {
      ComplementaryCodes(|llrs|);
      OppositeScores(llrs, CodeBits(0, |llrs|), CodeBits(15, |llrs|));
    } else {
      SomeScoreRate5(llrs);
    }
  }

  lemma SomeScoreRate5(llrs: seq<real>)
    requires |llrs| == 5
    ensures Score(llrs, CodeBits(0, 5)) >= 0.0 || Score(llrs, CodeBits(1, 5)) >= 0.0
         || Score(llrs, CodeBits(14, 5)) >= 0.0 || Score(llrs, CodeBits(15, 5)) >= 0.0
  {
    BalancedCodes();
    BalancedScores(llrs, CodeBits(0, 5), CodeBits(15, 5), CodeBits(1, 5), CodeBits(14, 5));
  }

  lemma {:induction false} BalancedScores(llrs: seq<real>, a: seq<bool>, b: seq<bool>, c: seq<bool>, d: seq<bool>)
    requires |llrs| == |a| == |b| == |c| == |d|
    requires forall i :: 0 <= i < |a| ==> Unit(a[i]) + Unit(b[i]) + Unit(c[i]) + Unit(d[i]) == 2
    ensures Score(llrs, a) + Score(llrs, b) + Score(llrs, c) + Score(llrs, d) == 0.0
  {
    if a != [] {
      var n := |a| - 1;
      BalancedScores(llrs[..n], a[..n], b[..n], c[..n], d[..n]);
      ContributionIsSigned(llrs[n], a[n]);
      ContributionIsSigned(llrs[n], b[n]);
      ContributionIsSigned(llrs[n], c[n]);
      ContributionIsSigned(llrs[n], d[n]);
    }
  }

  // ---- What the decoder corrects ----

  // How far each received value speaks for the codeword's bit.
  function Agreement(llrs: seq<real>, cw: seq<bool>): (a: seq<real>)
    requires |llrs| == |cw|
    ensures |a| == |cw|
  {
    seq(|cw|, i requires 0 <= i < |cw| => Signed(llrs[i], cw[i]))
  }

  // The sum of the values selected by a mask.
  function MaskSum(a: seq<real>, m: seq<bool>): real
    requires |a| == |m|
  {
    if m == [] then 0.0
    else MaskSum(a[..|m| - 1], m[..|m| - 1]) + (if m[|m| - 1] then a[|m| - 1] else 0.0)
  }

  lemma {:induction false} ScoreDifference(llrs: seq<real>, c: seq<bool>, d: seq<bool>)
    requires |llrs| == |c| == |d|
    ensures Score(llrs, c) - Score(llrs, d) == 2.0 * MaskSum(Agreement(llrs, c), Xor(c, d))
  {
    if c != [] {
      var n := |c| - 1;
      ScoreDifference(llrs[..n], c[..n], d[..n]);
      assert Agreement(llrs, c)[..n] == Agreement(llrs[..n], c[..n]);
      assert Xor(c, d)[..n] == Xor(c[..n], d[..n]);
      ContributionIsSigned(llrs[n], c[n]);
      ContributionIsSigned(llrs[n], d[n]);
    }
  }

  // The minimum distance of the code: two, two, three and four.
  function MinDistance(cr: nat): nat {
    if cr <= 6 then 2 else cr - 4
  }

  // All bits but possibly bit w have the right sign, and the value of bit w is
  // outweighed by any t - 1 others together.
  ghost predicate Outweighed(a: seq<real>, w: nat, t: nat)
    requires w < |a|
  {
    && (forall j :: 0 <= j < |a| && j != w ==> a[j] > 0.0)
    && forall m: seq<bool> :: |m| == |a| && !m[w] && Ones(m) == t - 1 ==> a[w] + MaskSum(a, m) > 0.0
  }

  // Clearing one bit of a mask.
  lemma {:induction false} ClearBit(a: seq<real>, m: seq<bool>, w: nat)
    requires |a| == |m| && w < |m| && m[w]
    ensures Ones(m) == Ones(m[w := false]) + 1
    ensures MaskSum(a, m) == MaskSum(a, m[w := false]) + a[w]
  {
    var n := |m| - 1;
    if w < n {
      ClearBit(a[..n], m[..n], w);
      assert m[w := false][..n] == m[..n][w := false];
    } else {
      assert m[w := false][..n] == m[..n];
    }
  }

  // A mask over positive values contains one of any smaller weight and no larger sum.
  lemma {:induction false} SubMask(a: seq<real>, m: seq<bool>, t: nat) returns (r: seq<bool>)
    requires |a| == |m| && Ones(m) >= t && forall j :: 0 <= j < |m| && m[j] ==> a[j] > 0.0
    ensures |r| == |m| && Ones(r) == t && MaskSum(a, r) <= MaskSum(a, m)
    ensures Ones(m) > t ==> MaskSum(a, r) < MaskSum(a, m)
    ensures forall j :: 0 <= j < |m| && r[j] ==> m[j]
    decreases Ones(m)
  {
    if Ones(m) == t {
      r := m;
    } else {
      var w := SomeBit(m);
      ClearBit(a, m, w);
      r := SubMask(a, m[w := false], t);
    }
  }

  lemma {:induction false} SomeBit(m: seq<bool>) returns (w: nat)
    requires Ones(m) > 0
    ensures w < |m| && m[w]
  {
    var n := |m| - 1;
    if m[n] {
      w := n;
    } else {
      w := SomeBit(m[..n]);
    }
  }

  lemma OutweighedSum(a: seq<real>, w: nat, t: nat, m: seq<bool>)
    requires w < |a| == |m| && Outweighed(a, w, t) && Ones(m) >= t >= 1
    ensures MaskSum(a, m) > 0.0
  {
    if m[w] {
      ClearBit(a, m, w);
      var r := SubMask(a, m[w := false], t - 1);
      assert !r[w];
    } else {
      var r := SubMask(a, m, 0);
      ZeroWeight(a, r);
    }
  }

  lemma {:induction false} ZeroWeight(a: seq<real>, m: seq<bool>)
    requires |a| == |m| && Ones(m) == 0
    ensures MaskSum(a, m) == 0.0
  {
    if m != [] {
      ZeroWeight(a[..|m| - 1], m[..|m| - 1]);
    }
  }

  lemma ParityBitLinear(n: Nibble, m: Nibble, cr: nat, k: nat)
    ensures ParityBit(Xor(n, m), cr, k) == (ParityBit(n, cr, k) != ParityBit(m, cr, k))
  {}

  lemma EncodeLinear(n: Nibble, m: Nibble, cr: nat)
    requires 5 <= cr <= 8
    ensures Xor(Encode(n, cr), Encode(m, cr)) == Encode(Xor(n, m), cr)
  {
    forall i | 0 <= i < cr
      ensures Xor(Encode(n, cr), Encode(m, cr))[i] == Encode(Xor(n, m), cr)[i]
    {
      EncodeAt(n, cr, i);
      EncodeAt(m, cr, i);
      EncodeAt(Xor(n, m), cr, i);
      if i >= 4 { ParityBitLinear(n, m, cr, i - 4); }
    }
  }

  lemma EncodeAt(n: Nibble, cr: nat, i: nat)
    requires 5 <= cr <= 8 && i < cr
    ensures Encode(n, cr)[i] == if i < 4 then n[i] else ParityBit(n, cr, i - 4)
  {
    EncodeBits(n, cr);
  }

  lemma OnesFive(m: seq<bool>)
    requires |m| >= 5
    ensures Ones(m[..5]) == Unit(m[0]) + Unit(m[1]) + Unit(m[2]) + Unit(m[3]) + Unit(m[4])
  {
    OnesNext(m, 0);
    OnesNext(m, 1);
    OnesNext(m, 2);
    OnesNext(m, 3);
    OnesNext(m, 4);
    assert Ones(m[..0]) == 0;
  }

  // A codeword other than zero has at least the minimum weight.
  lemma CodeWeight(d: Nibble, cr: nat)
    requires 5 <= cr <= 8 && (d[0] || d[1] || d[2] || d[3])
    ensures Ones(Encode(d, cr)) >= MinDistance(cr)
  {
    var e := Encode(d, cr);
    EncodeBits(d, cr);
    OnesFive(e);
    if cr >= 6 { OnesNext(e, 5); }
    if cr >= 7 { OnesNext(e, 6); }
    if cr >= 8 { OnesNext(e, 7); }
    assert e[..cr] == e;
  }

  lemma CodeDistance(n: Nibble, m: Nibble, cr: nat)
    requires 5 <= cr <= 8 && n != m
    ensures Ones(Xor(Encode(n, cr), Encode(m, cr))) >= MinDistance(cr)
  {
    EncodeLinear(n, m, cr);
    assert n[0] != m[0] || n[1] != m[1] || n[2] != m[2] || n[3] != m[3];
    CodeWeight(Xor(n, m), cr);
  }

  // If every bit but one has the right sign, and that one is outweighed by any two
  // others at rate 4/7 (any three at 4/8, any single one at 4/5 and 4/6), the soft
  // decoder returns the nibble that was sent.
  lemma SoftDecodesSent(n: Nibble, llrs: seq<real>, w: nat)
    requires 5 <= |llrs| <= 8 && w < |llrs|
    requires Outweighed(Agreement(llrs, Encode(n, |llrs|)), w, MinDistance(|llrs|))
    ensures SoftNibble(llrs) == n
  {
    var cr, found := |llrs|, SoftNibble(llrs);
    var code := CodeTable(cr);
    var best, sent := BestUpTo(llrs, code, |code| - 1), IndexOf(n);
    FirstBestIff(llrs, code, best);
    TableIsCode(sent, cr);
    TableIsCode(best, cr);
    assert Score(llrs, code[sent]) <= Score(llrs, code[best]);
    if found != n {
      CodeDistance(n, found, cr);
      ScoreDifference(llrs, Encode(n, cr), Encode(found, cr));
      OutweighedSum(Agreement(llrs, Encode(n, cr)), w, MinDistance(cr), Xor(Encode(n, cr), Encode(found, cr)));
    }
  }

  // ---- One weak bit among strong ones ----

  lemma {:induction false} MaskSumAtLeast(a: seq<real>, m: seq<bool>, g: real)
    requires |a| == |m| && g >= 0.0 && forall j :: 0 <= j < |m| && m[j] ==> a[j] >= g
    ensures MaskSum(a, m) >= Ones(m) as real * g
  {
    if m != [] {
      var n := |m| - 1;
      MaskSumAtLeast(a[..n], m[..n], g);
      assert Ones(m) as real * g == Ones(m[..n]) as real * g + Unit(m[n]) as real * g;
    }
  }

  // A bit weaker than t - 1 times what all others have at least is outweighed.
  lemma OutweighedByMargin(a: seq<real>, w: nat, t: nat, g: real)
    requires w < |a| && t >= 1 && g > 0.0
    requires forall j :: 0 <= j < |a| && j != w ==> a[j] >= g
    requires a[w] > -((t - 1) as real * g)
    ensures Outweighed(a, w, t)
  {
    forall m: seq<bool> | |m| == |a| && !m[w] && Ones(m) == t - 1
      ensures a[w] + MaskSum(a, m) > 0.0
    {
      MaskSumAtLeast(a, m, g);
    }
  }

  // What the soft decoder recovers is what the hard decoder reads from clean codewords.
  lemma SoftAgreesWithHard(n: Nibble, llrs: seq<real>, w: nat)
    requires 5 <= |llrs| <= 8 && w < |llrs|
    requires Outweighed(Agreement(llrs, Encode(n, |llrs|)), w, MinDistance(|llrs|))
    ensures SoftNibble(llrs) == Decode(Encode(n, |llrs|))
  {
    SoftDecodesSent(n, llrs, w);
    CleanDecodes(n, |llrs|);
  }
}
