/**
 From FFT bins to codewords: the bin offset, the Gray map and the diagonal
 interleaver, each with the transmitter's inverse.
 */
module LoraSymbols {
  import opened Arithmetic
  import opened Bits

  // ---- Diagonal interleaver ----

  ghost predicate IsMatrix<T>(m: seq<seq<T>>, rows: nat, columns: nat) {
    |m| == rows && forall i :: 0 <= i < rows ==> |m[i]| == columns
  }

  // `mod_pos(i - j - 1, sf)`: where bit j of symbol i goes, and where it comes from.
  function Diagonal(i: nat, j: nat, sf: nat): (r: nat)
    requires sf > 0
    ensures r < sf
  {
    (i - j - 1) % sf
  }

  lemma DiagonalTwice(i: nat, j: nat, sf: nat)
    requires j < sf
    ensures Diagonal(i, Diagonal(i, j, sf), sf) == j
  {
    var x := i - j - 1;
    assert i - x % sf - 1 == (x / sf) * sf + j;
    DivModIs(i - x % sf - 1, sf, x / sf, j);
  }

  // Codeword r takes its bit i from symbol i.
  function Deinterleave<T>(symbols: seq<seq<T>>, sf: nat): (codewords: seq<seq<T>>)
    requires sf > 0 && IsMatrix(symbols, |symbols|, sf)
    ensures IsMatrix(codewords, sf, |symbols|)
  {
    seq(sf, r requires 0 <= r < sf =>
      seq(|symbols|, i requires 0 <= i < |symbols| => symbols[i][Diagonal(i, r, sf)]))
  }

  // The transmitter's map, from sf codewords of length cr to cr symbols of sf bits.
  function Interleave<T>(codewords: seq<seq<T>>, cr: nat): (symbols: seq<seq<T>>)
    requires |codewords| > 0 && IsMatrix(codewords, |codewords|, cr)
    ensures IsMatrix(symbols, cr, |codewords|)
  {
    seq(cr, i requires 0 <= i < cr =>
      seq(|codewords|, j requires 0 <= j < |codewords| => codewords[Diagonal(i, j, |codewords|)][i]))
  }

  // The codeword that bit j of symbol i belongs to: the last ones first in symbol 0, and
  // one further on in each symbol after it, around the end.
  function Row(i: nat, j: nat, sf: nat): (r: nat)
    requires j < sf
    ensures r < sf
  {
    if i == 0 then sf - 1 - j
    else if Row(i - 1, j, sf) == sf - 1 then 0
    else Row(i - 1, j, sf) + 1
  }

  lemma {:induction false} DiagonalIsRow(i: nat, j: nat, sf: nat)
    requires j < sf
    ensures Diagonal(i, j, sf) == Row(i, j, sf)
  {
    if i == 0 {
      DiagonalFirst(j, sf);
    } else {
      DiagonalIsRow(i - 1, j, sf);
      DiagonalNext(i - 1, j, sf);
    }
  }

  lemma DiagonalFirst(j: nat, sf: nat)
    requires j < sf
    ensures Diagonal(0, j, sf) == sf - 1 - j
  {
    var x: int := -1 - (j as int);
    DivModIs(x, sf, -1, sf - 1 - j);
  }

  lemma DiagonalNext(i: nat, j: nat, sf: nat)
    requires sf > 0
    ensures Diagonal(i + 1, j, sf) == if Diagonal(i, j, sf) == sf - 1 then 0 else Diagonal(i, j, sf) + 1
  {
    var x := i - j - 1;
    ModNext(x, sf);
    assert i + 1 - j - 1 == x + 1;
  }

  lemma ModNext(x: int, m: nat)
    requires m > 0
    ensures (x + 1) % m == if x % m == m - 1 then 0 else x % m + 1
  {
    var q := x / m;
    assert x == q * m + x % m;
    if x % m == m - 1 {
      assert x + 1 == (q + 1) * m + 0;
      DivModIs(x + 1, m, q + 1, 0);
    } else {
      DivModIs(x + 1, m, q, x % m + 1);
    }
  }

  // Every bit of every symbol, in its place.
  lemma DeinterleavedBit<T>(symbols: seq<seq<T>>, sf: nat, i: nat, j: nat)
    requires sf > 0 && IsMatrix(symbols, |symbols|, sf) && i < |symbols| && j < sf
    ensures Deinterleave(symbols, sf)[Row(i, j, sf)][i] == symbols[i][j]
  {
    DiagonalIsRow(i, j, sf);
    DiagonalTwice(i, j, sf);
  }

  lemma DeinterleaveInterleave<T>(codewords: seq<seq<T>>, cr: nat)
    requires |codewords| > 0 && IsMatrix(codewords, |codewords|, cr)
    ensures Deinterleave(Interleave(codewords, cr), |codewords|) == codewords
  {
    var sf := |codewords|;
    var d := Deinterleave(Interleave(codewords, cr), sf);
    forall r | 0 <= r < sf
      ensures d[r] == codewords[r]
    {
      forall i | 0 <= i < cr
        ensures d[r][i] == codewords[r][i]
      {
        DiagonalTwice(i, r, sf);
      }
    }
  }

  // lora_deinterleave on bits, lora_deinterleave_soft on log-likelihood ratios
  method DeinterleaveBlock<T(0)>(symbols: seq<seq<T>>, sf: nat) returns (out: array2<T>)
    requires sf > 0 && IsMatrix(symbols, |symbols|, sf)
    ensures out.Length0 == sf && out.Length1 == |symbols|
    ensures forall r, i :: 0 <= r < sf && 0 <= i < |symbols| ==> out[r, i] == Deinterleave(symbols, sf)[r][i]
  {
    out := new T[sf, |symbols|];
    for i := 0 to |symbols|
      invariant forall r, k :: 0 <= r < sf && 0 <= k < i ==> out[r, k] == symbols[k][Diagonal(k, r, sf)]
    {
      for j := 0 to sf
        invariant forall r, k :: 0 <= r < sf && 0 <= k < i ==> out[r, k] == symbols[k][Diagonal(k, r, sf)]
        invariant forall r :: 0 <= r < sf && Diagonal(i, r, sf) < j ==> out[r, i] == symbols[i][Diagonal(i, r, sf)]
      {
        DiagonalTwice(i, j, sf);
        forall r | 0 <= r < sf && Diagonal(i, r, sf) == j
          ensures r == Diagonal(i, j, sf)
        {
          DiagonalTwice(i, r, sf);
        }
        out[Diagonal(i, j, sf), i] := symbols[i][j];
      }
    }
  }

  // Each row read off as a codeword.
  method DeinterleaveRows<T(0)>(symbols: seq<seq<T>>, sf: nat) returns (codewords: seq<seq<T>>)
    requires sf > 0 && IsMatrix(symbols, |symbols|, sf)
    ensures codewords == Deinterleave(symbols, sf)
  {
    var matrix := DeinterleaveBlock(symbols, sf);
    ghost var want := Deinterleave(symbols, sf);
    codewords := [];
    for r := 0 to sf
      invariant codewords == want[..r]
    {
      var row := [];
      for i := 0 to |symbols|
        invariant |row| == i && forall k :: 0 <= k < i ==> row[k] == want[r][k]
      {
        assert matrix[r, i] == want[r][i];
        row := row + [matrix[r, i]];
      }
      assert row == want[r];
      codewords := codewords + [row];
    }
  }

  // ---- Gray map ----

  // lora_gray_decode: s ^ (s >> 1)
  function GrayDecode(s: seq<bool>): (r: seq<bool>)
    ensures |r| == |s|
  {
    if s == [] then [] else Xor(s, s[1..] + [false])
  }

  // The inverse: bit i is the parity of the bits from i up.
  function GrayEncode(s: seq<bool>): (r: seq<bool>)
    ensures |r| == |s|
  {
    if s == [] then []
    else var rest := GrayEncode(s[1..]);
      [s[0] != (rest != [] && rest[0])] + rest
  }

  lemma {:induction false} GrayDecodeEncode(s: seq<bool>)
    ensures GrayDecode(GrayEncode(s)) == s
  {
    if s != [] {
      var g, rest := GrayEncode(s), GrayEncode(s[1..]);
      GrayDecodeEncode(s[1..]);
      assert g[1..] == rest;
      forall i | 0 <= i < |s|
        ensures GrayDecode(g)[i] == s[i]
      {
        if i > 0 {
          assert GrayDecode(rest)[i - 1] == s[1..][i - 1];
        }
      }
    }
  }

  lemma {:induction false} GrayEncodeAppendZero(s: seq<bool>)
    ensures GrayEncode(s + [false]) == GrayEncode(s) + [false]
  {
    if s == [] {
      assert GrayEncode([false]) == [false];
    } else {
      assert (s + [false])[1..] == s[1..] + [false];
      GrayEncodeAppendZero(s[1..]);
    }
  }

  // One round of the loop below: the map of a word from the map of its shift.
  lemma GrayEncodeShift(s: seq<bool>)
    requires s != []
    ensures GrayEncode(s) == Xor(s, GrayEncode(s[1..] + [false]))
  {
    GrayDecodeEncode(s);
    GrayEncodeAppendZero(s[1..]);
    var g := GrayEncode(s);
    assert g[1..] + [false] == GrayEncode(s[1..] + [false]);
    forall i | 0 <= i < |s|
      ensures g[i] == Xor(s, g[1..] + [false])[i]
    {
      assert GrayDecode(g)[i] == s[i];
    }
  }

  lemma {:induction false} GrayEncodeZero(s: seq<bool>)
    requires IsZero(s)
    ensures GrayEncode(s) == s
  {
    if s != [] {
      GrayEncodeZero(s[1..]);
    }
  }

  lemma GrayRound(word: Word, b: Word, s: Word)
    requires Xor(b, GrayEncode(s)) == GrayEncode(word)
    ensures Xor(Xor(b, s), GrayEncode(s[1..] + [false])) == GrayEncode(word)
  {
    GrayEncodeShift(s);
    XorAssociative(b, s, GrayEncode(s[1..] + [false]));
  }

  predicate IsZero(s: seq<bool>) {
    forall i :: 0 <= i < |s| ==> !s[i]
  }

  lemma GrayDone(b: Word, s: Word)
    requires IsZero(s)
    ensures Xor(b, GrayEncode(s)) == b
  {
    GrayEncodeZero(s);
  }

  // lora_gray_encode
  method ComputeGrayEncode(word: Word) returns (b: Word)
    ensures b == GrayEncode(word)
  {
    b := word;
    var s: Word := word[1..] + [false];
    GrayEncodeShift(word);
    ghost var k := 15;
    while !IsZero(s)
      invariant k >= 0 && forall i :: k <= i < 16 ==> !s[i]
      invariant Xor(b, GrayEncode(s)) == GrayEncode(word)
      decreases k
    {
      GrayRound(word, b, s);
      b := Xor(b, s);
      s := s[1..] + [false];
      k := k - 1;
    }
    GrayDone(b, s);
  }

  // ---- Bins ----

  // The bin relative to the preamble's, less the transmitter's offset of one; in the
  // header and with low-data-rate optimisation, four bins make one symbol value.
  function DemodBin(bin: int, preambleBin: int, sf: nat, reduced: bool): nat {
    var corr := (bin - preambleBin - 1) % Pow2(sf);
    if reduced then corr / 4 else corr
  }

  // The application bits carried by one symbol.
  function BitsPerSymbol(sf: nat, reduced: bool): nat
    requires sf >= 2
  {
    if reduced then sf - 2 else sf
  }

  // The low `n` bits of a word, most significant first.
  function MsbFirst(w: seq<bool>, n: nat): (r: seq<bool>)
    requires n <= |w|
    ensures |r| == n
  {
    seq(n, j requires 0 <= j < n => w[n - 1 - j])
  }

  // The bits the decoder reads off a bin.
  function SymbolBits(bin: int, preambleBin: int, sf: nat, reduced: bool): (r: seq<bool>)
    requires 7 <= sf <= 12
    ensures |r| == BitsPerSymbol(sf, reduced)
  {
    MsbFirst(GrayDecode(ToBits(DemodBin(bin, preambleBin, sf, reduced), 16)), BitsPerSymbol(sf, reduced))
  }

  // Bit k of a number.
  predicate BitAt(v: nat, k: nat) {
    if k == 0 then v % 2 == 1 else BitAt(v / 2, k - 1)
  }

  lemma {:induction false} ToBitsAt(v: nat, n: nat, k: nat)
    requires k < n
    ensures ToBits(v, n)[k] == BitAt(v, k)
  {
    if k > 0 {
      ToBitsAt(v / 2, n - 1, k - 1);
    }
  }

  lemma MsbGrayAt(w: seq<bool>, n: nat, j: nat)
    requires j < n < |w|
    ensures MsbFirst(GrayDecode(w), n)[j] == (w[n - 1 - j] != w[n - j])
  {}

  lemma DemodIs(bin: int, preambleBin: int, sf: nat, reduced: bool)
    ensures DemodBin(bin, preambleBin, sf, reduced) == (bin - preambleBin - 1) % Pow2(sf) / if reduced then 4 else 1
  {}

  // Bit j, from the most significant, is the sum of two neighbouring bits of the value
  // that the bin stands for.
  lemma SymbolBitIs(bin: int, preambleBin: int, sf: nat, reduced: bool, v: nat, j: nat)
    requires 7 <= sf <= 12 && v == (bin - preambleBin - 1) % Pow2(sf) / if reduced then 4 else 1
    requires j < if reduced then sf - 2 else sf
    ensures var n := if reduced then sf - 2 else sf;
      SymbolBits(bin, preambleBin, sf, reduced)[j] == (BitAt(v, n - 1 - j) != BitAt(v, n - j))
  {
    DemodIs(bin, preambleBin, sf, reduced);
    var n := BitsPerSymbol(sf, reduced);
    MsbGrayAt(ToBits(v, 16), n, j);
    ToBitsAt(v, 16, n - 1 - j);
    ToBitsAt(v, 16, n - j);
  }

  // The bin the transmitter sends for a symbol's bits; with reduced rate it may be
  // received up to three bins high.
  function SymbolBin(bits: seq<bool>, preambleBin: int, sf: nat, reduced: bool, offset: nat): nat {
    var v := Value(GrayEncode(MsbFirst(bits, |bits|)));
    ((if reduced then 4 * v + offset else v) + 1 + preambleBin) % Pow2(sf)
  }

  lemma BinRoundTrip(x: nat, preambleBin: int, m: nat)
    requires x < m
    ensures ((x + 1 + preambleBin) % m - preambleBin - 1) % m == x
  {
    var y := x + 1 + preambleBin;
    assert y % m - preambleBin - 1 == -(y / m) * m + x;
    DivModIs(y % m - preambleBin - 1, m, -(y / m), x);
  }

  lemma {:induction false} ToBitsExtend(v: nat, n: nat, k: nat)
    requires v < Pow2(n)
    ensures ToBits(v, n + k)[..n] == ToBits(v, n)
    ensures k > 0 ==> !ToBits(v, n + k)[n]
  {
    if n > 0 {
      ToBitsExtend(v / 2, n - 1, k);
      assert ToBits(v, n + k) == [v % 2 == 1] + ToBits(v / 2, n - 1 + k);
    }
  }

  // Reading a Gray-coded value back from a wider word.
  lemma GrayValueRoundTrip(low: seq<bool>, width: nat, w: seq<bool>)
    requires |low| < width && w == ToBits(Value(GrayEncode(low)), width)
    ensures forall i :: 0 <= i < |low| ==> GrayDecode(w)[i] == low[i]
  {
    var n, g := |low|, GrayEncode(low);
    ToBitsValue(g);
    ToBitsExtend(Value(g), n, width - n);
    GrayDecodeEncode(low);
    forall i | 0 <= i < n
      ensures GrayDecode(w)[i] == low[i]
    {
      assert w[..n] == g && GrayDecode(g)[i] == low[i];
    }
  }

  lemma SymbolRoundTrip(bits: seq<bool>, preambleBin: int, sf: nat, reduced: bool, offset: nat)
    requires 7 <= sf <= 12 && |bits| == BitsPerSymbol(sf, reduced) && offset < 4
    ensures SymbolBits(SymbolBin(bits, preambleBin, sf, reduced, offset), preambleBin, sf, reduced) == bits
  {
    DemodRoundTrip(bits, preambleBin, sf, reduced, offset);
    MsbRoundTrip(bits, 16);
  }

  lemma MsbRoundTrip(bits: seq<bool>, width: nat)
    requires |bits| < width
    ensures MsbFirst(GrayDecode(ToBits(Value(GrayEncode(MsbFirst(bits, |bits|))), width)), |bits|) == bits
  {
    var low := MsbFirst(bits, |bits|);
    GrayValueRoundTrip(low, width, ToBits(Value(GrayEncode(low)), width));
  }

  lemma DemodRoundTrip(bits: seq<bool>, preambleBin: int, sf: nat, reduced: bool, offset: nat)
    requires 7 <= sf <= 12 && |bits| == BitsPerSymbol(sf, reduced) && offset < 4
    ensures DemodBin(SymbolBin(bits, preambleBin, sf, reduced, offset), preambleBin, sf, reduced)
            == Value(GrayEncode(MsbFirst(bits, |bits|)))
  {
    var v := Value(GrayEncode(MsbFirst(bits, |bits|)));
    FitsBin(v, sf, reduced, offset);
    SentBin(if reduced then 4 * v + offset else v, preambleBin, sf, reduced, Pow2(sf));
  }

  lemma SentBin(x: nat, preambleBin: int, sf: nat, reduced: bool, m: nat)
    requires x < m == Pow2(sf)
    ensures DemodBin((x + 1 + preambleBin) % m, preambleBin, sf, reduced) == if reduced then x / 4 else x
  {
    BinRoundTrip(x, preambleBin, m);
  }

  lemma FitsBin(v: nat, sf: nat, reduced: bool, offset: nat)
    requires sf >= 2 && v < Pow2(BitsPerSymbol(sf, reduced)) && offset < 4
    ensures (if reduced then 4 * v + offset else v) < Pow2(sf) && (4 * v + offset) / 4 == v
  {
    assert Pow2(sf) == 2 * Pow2(sf - 1) && Pow2(sf - 1) == 2 * Pow2(sf - 2);
  }
}
