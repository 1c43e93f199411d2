/**
 One interleaver block of the LoRa decoder, on the hard and on the soft path, against
 the transmitter's block: as many symbols as the codeword has bits, one nibble per bit
 of a symbol.
 */
module LoraBlocks {
  import opened Bits
  import opened LoraHamming
  import opened LoraSoft
  import opened LoraSymbols
  import opened SymbolLlrs

  // Spreading factor, low-data-rate optimisation, the bin the preamble locked to, and
  // which of the two paths decodes.
  datatype Config = Config(sf: nat, ldro: bool, preambleBin: int, soft: bool)

  predicate ValidConfig(c: Config) {
    7 <= c.sf <= 12
  }

  // A dechirped symbol: the strongest FFT bin, and the power of every bin.
  datatype Symbol = Symbol(bin: int, power: seq<real>)

  predicate ValidSymbol(y: Symbol, c: Config) {
    c.soft ==> |y.power| == Pow2(c.sf)
  }

  ghost predicate ValidSymbols(block: seq<Symbol>, c: Config) {
    forall i :: 0 <= i < |block| ==> ValidSymbol(block[i], c)
  }

  // ---- The decoder's block ----

  function HardSymbols(block: seq<Symbol>, c: Config, reduced: bool): (symbols: seq<seq<bool>>)
    requires ValidConfig(c)
    ensures IsMatrix(symbols, |block|, BitsPerSymbol(c.sf, reduced))
  {
    seq(|block|, i requires 0 <= i < |block| => SymbolBits(block[i].bin, c.preambleBin, c.sf, reduced))
  }

  function SoftSymbols(block: seq<Symbol>, c: Config, reduced: bool): (symbols: seq<seq<real>>)
    requires ValidConfig(c) && c.soft && ValidSymbols(block, c)
    ensures IsMatrix(symbols, |block|, BitsPerSymbol(c.sf, reduced))
  {
    seq(|block|, i requires 0 <= i < |block| =>
      Llrs(block[i].power, BinTable(c.sf, reduced), BitsPerSymbol(c.sf, reduced)))
  }

  function DecodeAll(codewords: seq<seq<bool>>, cr: nat): (nibbles: seq<Nibble>)
    requires 5 <= cr <= 8 && IsMatrix(codewords, |codewords|, cr)
    ensures |nibbles| == |codewords|
  {
    seq(|codewords|, r requires 0 <= r < |codewords| => Decode(codewords[r]))
  }

  function SoftDecodeAll(rows: seq<seq<real>>, cr: nat): (nibbles: seq<Nibble>)
    requires 5 <= cr <= 8 && IsMatrix(rows, |rows|, cr)
    ensures |nibbles| == |rows|
  {
    seq(|rows|, r requires 0 <= r < |rows| => SoftNibble(rows[r]))
  }

  function DecodeBlock(block: seq<Symbol>, c: Config, reduced: bool): (nibbles: seq<Nibble>)
    requires ValidConfig(c) && ValidSymbols(block, c) && 5 <= |block| <= 8
    ensures |nibbles| == BitsPerSymbol(c.sf, reduced)
  {
    var n := BitsPerSymbol(c.sf, reduced);
    if c.soft then SoftDecodeAll(Deinterleave(SoftSymbols(block, c, reduced), n), |block|)
    else DecodeAll(Deinterleave(HardSymbols(block, c, reduced), n), |block|)
  }

  // ---- The transmitter's block ----

  function Codewords(nibbles: seq<Nibble>, cr: nat): (codewords: seq<seq<bool>>)
    requires 5 <= cr <= 8
    ensures IsMatrix(codewords, |nibbles|, cr)
  {
    seq(|nibbles|, r requires 0 <= r < |nibbles| => Encode(nibbles[r], cr))
  }

  // `offset` is where within its group of four a received bin falls when the rate is
  // reduced.
  function EncodeBlock(nibbles: seq<Nibble>, cr: nat, c: Config, reduced: bool, offset: nat -> nat): (bins: seq<int>)
    requires ValidConfig(c) && |nibbles| == BitsPerSymbol(c.sf, reduced) && 5 <= cr <= 8
    ensures |bins| == cr
  {
    var symbols := Interleave(Codewords(nibbles, cr), cr);
    seq(cr, i requires 0 <= i < cr => SymbolBin(symbols[i], c.preambleBin, c.sf, reduced, offset(i) % 4))
  }

  // The bins carry the interleaved codewords.
  lemma BinsCarry(nibbles: seq<Nibble>, cr: nat, c: Config, reduced: bool, offset: nat -> nat, i: nat)
    requires ValidConfig(c) && |nibbles| == BitsPerSymbol(c.sf, reduced) && 5 <= cr <= 8 && i < cr
    ensures var bin := EncodeBlock(nibbles, cr, c, reduced, offset)[i];
      && 0 <= bin < Pow2(c.sf)
      && SymbolBits(bin, c.preambleBin, c.sf, reduced) == Interleave(Codewords(nibbles, cr), cr)[i]
  {
    var sent := Interleave(Codewords(nibbles, cr), cr)[i];
    SymbolRoundTrip(sent, c.preambleBin, c.sf, reduced, offset(i) % 4);
  }

  // ---- The hard path ----

  ghost predicate Exact(block: seq<Symbol>, bins: seq<int>) {
    |block| == |bins| && forall i :: 0 <= i < |block| ==> block[i].bin == bins[i]
  }

  lemma HardBlockRoundTrip(nibbles: seq<Nibble>, cr: nat, c: Config, reduced: bool, offset: nat -> nat,
                           block: seq<Symbol>)
    requires ValidConfig(c) && |nibbles| == BitsPerSymbol(c.sf, reduced) && 5 <= cr <= 8
    requires !c.soft && Exact(block, EncodeBlock(nibbles, cr, c, reduced, offset))
    ensures DecodeBlock(block, c, reduced) == nibbles
  {
    var codewords := Codewords(nibbles, cr);
    var sent := Interleave(codewords, cr);
    forall i | 0 <= i < cr
      ensures HardSymbols(block, c, reduced)[i] == sent[i]
    {
      BinsCarry(nibbles, cr, c, reduced, offset, i);
    }
    assert HardSymbols(block, c, reduced) == sent;
    DeinterleaveInterleave(codewords, cr);
    CleanAll(nibbles, cr);
  }

  lemma CleanAll(nibbles: seq<Nibble>, cr: nat)
    requires 5 <= cr <= 8
    ensures DecodeAll(Codewords(nibbles, cr), cr) == nibbles
  {
    forall r | 0 <= r < |nibbles|
      ensures Decode(Encode(nibbles[r], cr)) == nibbles[r]
    {
      CleanDecodes(nibbles[r], cr);
    }
  }

  // ---- The soft path ----

  // The soft bits determine the nibble: at most bit w has the wrong sign, and it is
  // outweighed.
  ghost predicate Recoverable(llrs: seq<real>, n: Nibble, w: nat) {
    && 5 <= |llrs| <= 8 && w < |llrs|
    && Outweighed(Agreement(llrs, Encode(n, |llrs|)), w, MinDistance(|llrs|))
  }

  // With at most one outweighed bit per codeword, wherever the interleaver put it, the
  // nibbles of the block are the ones that were sent.
  lemma SoftRowsRecover(rows: seq<seq<real>>, cr: nat, sent: seq<Nibble>, weak: seq<nat>)
    requires 5 <= cr <= 8 && IsMatrix(rows, |rows|, cr) && |rows| == |sent| == |weak|
    requires forall r :: 0 <= r < |rows| ==> Recoverable(rows[r], sent[r], weak[r])
    ensures SoftDecodeAll(rows, cr) == sent
  {
    forall r | 0 <= r < |rows|
      ensures SoftNibble(rows[r]) == sent[r]
    {
      SoftDecodesSent(sent[r], rows[r], weak[r]);
    }
  }

  // Every symbol but w is heard at its bin with margin g; symbol w is heard too, or it
  // is any symbol below MinDistance - 1 times the margin.
  ghost predicate HeardBlock(block: seq<Symbol>, bins: seq<int>, c: Config, reduced: bool, w: nat, g: real)
    requires ValidConfig(c) && c.soft && ValidSymbols(block, c)
  {
    var table := BinTable(c.sf, reduced);
    && |block| == |bins| && w < |block| && 0.0 < g
    && (forall i :: 0 <= i < |block| && i != w ==> Heard(block[i].power, table, bins[i], g))
    && (Heard(block[w].power, table, bins[w], g) || Faded(block[w].power, Limit(|block|, g)))
  }

  // What the other bits of a codeword outweigh.
  function Limit(cr: nat, g: real): real {
    (MinDistance(cr) - 1) as real * g
  }

  lemma LimitIsPositive(cr: nat, g: real)
    requires 5 <= cr <= 8 && 0.0 < g
    ensures 0.0 < Limit(cr, g)
  {}

  // How far soft bits agree with bits.
  ghost predicate AgreesAtLeast(llrs: seq<real>, bits: seq<bool>, g: real) {
    |llrs| == |bits| && forall j :: 0 <= j < |bits| ==> Signed(llrs[j], bits[j]) >= g
  }

  ghost predicate AgreesAbove(llrs: seq<real>, bits: seq<bool>, floor: real) {
    |llrs| == |bits| && forall j :: 0 <= j < |bits| ==> Signed(llrs[j], bits[j]) > floor
  }

  lemma HeardAgrees(power: seq<real>, table: seq<seq<bool>>, bits: nat, p: nat, g: real)
    requires |power| <= |table| && IsTable(table, bits) && Heard(power, table, p, g)
    ensures AgreesAtLeast(Llrs(power, table, bits), table[p], g)
  {
    forall j | 0 <= j < bits
      ensures Signed(Llrs(power, table, bits)[j], table[p][j]) >= g
    {
      HeardLlr(power, table, bits, p, g, j);
    }
  }

  lemma WeakAgrees(power: seq<real>, table: seq<seq<bool>>, bits: nat, p: nat, g: real, limit: real)
    requires |power| <= |table| && p < |table| && IsTable(table, bits) && 0.0 < limit
    requires Heard(power, table, p, g) || Faded(power, limit)
    ensures AgreesAbove(Llrs(power, table, bits), table[p], -limit)
  {
    forall j | 0 <= j < bits
      ensures Signed(Llrs(power, table, bits)[j], table[p][j]) > -limit
    {
      if Faded(power, limit) {
        FadedLlr(power, table, bits, limit, j, table[p][j]);
      } else {
        HeardLlr(power, table, bits, p, g, j);
      }
    }
  }

  // Strong symbols and one weak one, read along the diagonals, give recoverable rows.
  lemma RowRecovers(llrs: seq<seq<real>>, codewords: seq<seq<bool>>, nibble: Nibble, cr: nat, w: nat, g: real, r: nat)
    requires 5 <= cr <= 8 && w < cr && 0.0 < g && r < |codewords| && IsMatrix(codewords, |codewords|, cr)
    requires codewords[r] == Encode(nibble, cr) && IsMatrix(llrs, cr, |codewords|)
    requires forall i :: 0 <= i < cr && i != w ==> AgreesAtLeast(llrs[i], Interleave(codewords, cr)[i], g)
    requires AgreesAbove(llrs[w], Interleave(codewords, cr)[w], -Limit(cr, g))
    ensures Recoverable(Deinterleave(llrs, |codewords|)[r], nibble, w)
  {
    var sf, sent := |codewords|, Interleave(codewords, cr);
    var row := Deinterleave(llrs, sf)[r];
    var a := Agreement(row, codewords[r]);
    DeinterleaveInterleave(codewords, cr);
    forall i | 0 <= i < cr
      ensures a[i] == Signed(llrs[i][Diagonal(i, r, sf)], sent[i][Diagonal(i, r, sf)])
    {
      assert codewords[r][i] == Deinterleave(sent, sf)[r][i];
    }
    OutweighedByMargin(a, w, MinDistance(cr), g);
  }

  lemma HeardSymbols(nibbles: seq<Nibble>, cr: nat, c: Config, reduced: bool, offset: nat -> nat,
                     block: seq<Symbol>, w: nat, g: real, i: nat)
    requires ValidConfig(c) && |nibbles| == BitsPerSymbol(c.sf, reduced) && 5 <= cr <= 8
    requires c.soft && c.preambleBin == 0 && ValidSymbols(block, c) && i < cr
    requires HeardBlock(block, EncodeBlock(nibbles, cr, c, reduced, offset), c, reduced, w, g)
    ensures var llrs, sent := SoftSymbols(block, c, reduced)[i], Interleave(Codewords(nibbles, cr), cr)[i];
      && (i != w ==> AgreesAtLeast(llrs, sent, g))
      && (i == w ==> AgreesAbove(llrs, sent, -Limit(cr, g)))
  {
    var table, bits := BinTable(c.sf, reduced), BitsPerSymbol(c.sf, reduced);
    var bin := EncodeBlock(nibbles, cr, c, reduced, offset)[i];
    BinsCarry(nibbles, cr, c, reduced, offset, i);
    LimitIsPositive(cr, g);
    if i != w {
      HeardAgrees(block[i].power, table, bits, bin, g);
    } else {
      WeakAgrees(block[i].power, table, bits, bin, g, Limit(cr, g));
    }
  }

  lemma RowsRecover(llrs: seq<seq<real>>, nibbles: seq<Nibble>, cr: nat, w: nat, g: real)
    requires 5 <= cr <= 8 && w < cr && 0.0 < g && nibbles != [] && IsMatrix(llrs, cr, |nibbles|)
    requires forall i :: 0 <= i < cr && i != w ==>
      AgreesAtLeast(llrs[i], Interleave(Codewords(nibbles, cr), cr)[i], g)
    requires AgreesAbove(llrs[w], Interleave(Codewords(nibbles, cr), cr)[w], -Limit(cr, g))
    ensures SoftDecodeAll(Deinterleave(llrs, |nibbles|), cr) == nibbles
  {
    var rows := Deinterleave(llrs, |nibbles|);
    forall r | 0 <= r < |nibbles|
      ensures Recoverable(rows[r], nibbles[r], w)
    {
      RowRecovers(llrs, Codewords(nibbles, cr), nibbles[r], cr, w, g, r);
    }
    SoftRowsRecover(rows, cr, nibbles, seq(|nibbles|, _ => w));
  }

  lemma SoftBlockRoundTrip(nibbles: seq<Nibble>, cr: nat, c: Config, reduced: bool, offset: nat -> nat,
                           block: seq<Symbol>, w: nat, g: real)
    requires ValidConfig(c) && |nibbles| == BitsPerSymbol(c.sf, reduced) && 5 <= cr <= 8
    requires c.soft && c.preambleBin == 0 && ValidSymbols(block, c)
    requires HeardBlock(block, EncodeBlock(nibbles, cr, c, reduced, offset), c, reduced, w, g)
    ensures DecodeBlock(block, c, reduced) == nibbles
  {
    var llrs, sent := SoftSymbols(block, c, reduced), Interleave(Codewords(nibbles, cr), cr);
    forall i | 0 <= i < cr && i != w
      ensures AgreesAtLeast(llrs[i], sent[i], g)
    {
      HeardSymbols(nibbles, cr, c, reduced, offset, block, w, g, i);
    }
    HeardSymbols(nibbles, cr, c, reduced, offset, block, w, g, w);
    RowsRecover(llrs, nibbles, cr, w, g);
  }

  // ---- Both paths ----

  // The block reaches the decoder well enough for its path: with exactly the sent bins
  // on the hard path; on the soft path, heard but for one faded symbol.
  ghost predicate Arrives(block: seq<Symbol>, bins: seq<int>, c: Config, reduced: bool)
    requires ValidConfig(c) && ValidSymbols(block, c)
  {
    if c.soft then exists w: nat, g: real :: HeardBlock(block, bins, c, reduced, w, g)
    else Exact(block, bins)
  }

  // The lock leaves the preamble bin at zero, which the soft path takes for granted.
  lemma BlockRoundTrip(nibbles: seq<Nibble>, cr: nat, c: Config, reduced: bool, offset: nat -> nat, block: seq<Symbol>)
    requires ValidConfig(c) && |nibbles| == BitsPerSymbol(c.sf, reduced) && 5 <= cr <= 8 && ValidSymbols(block, c)
    requires c.soft ==> c.preambleBin == 0
    requires Arrives(block, EncodeBlock(nibbles, cr, c, reduced, offset), c, reduced)
    ensures |block| == cr && DecodeBlock(block, c, reduced) == nibbles
  {
    if c.soft {
      var w: nat, g: real :| HeardBlock(block, EncodeBlock(nibbles, cr, c, reduced, offset), c, reduced, w, g);
      SoftBlockRoundTrip(nibbles, cr, c, reduced, offset, block, w, g);
    } else {
      HardBlockRoundTrip(nibbles, cr, c, reduced, offset, block);
    }
  }

  // ---- Symbols whose sent bin is strictly strongest arrive ----

  lemma HeardLess(power: seq<real>, table: seq<seq<bool>>, p: int, g: real, less: real)
    requires |power| <= |table| && Heard(power, table, p, g) && 0.0 < less <= g
    ensures Heard(power, table, p, less)
  {}

  // A margin that all of the first k symbols have.
  lemma {:induction false} CommonMargin(block: seq<Symbol>, bins: seq<int>, table: seq<seq<bool>>, k: nat)
    returns (g: real)
    requires |block| == |bins| && k <= |block|
    requires forall i :: 0 <= i < |block| ==> |block[i].power| <= |table| && Loudest(block[i].power, bins[i])
    ensures 0.0 < g && forall i :: 0 <= i < k ==> Heard(block[i].power, table, bins[i], g)
  {
    if k == 0 {
      g := 1.0;
    } else {
      var rest := CommonMargin(block, bins, table, k - 1);
      var power, p := block[k - 1].power, bins[k - 1];
      LoudestIsHeard(power, table, p);
      var own := Margin(power, p, |power|);
      g := if own < rest then own else rest;
      HeardLess(power, table, p, own, g);
      forall i | 0 <= i < k - 1
        ensures Heard(block[i].power, table, bins[i], g)
      {
        HeardLess(block[i].power, table, bins[i], rest, g);
      }
    }
  }

  lemma LoudestArrives(block: seq<Symbol>, bins: seq<int>, c: Config, reduced: bool)
    requires ValidConfig(c) && c.soft && ValidSymbols(block, c) && |block| == |bins| > 0
    requires forall i :: 0 <= i < |block| ==> Loudest(block[i].power, bins[i])
    ensures Arrives(block, bins, c, reduced)
  {
    var g := CommonMargin(block, bins, BinTable(c.sf, reduced), |block|);
    assert HeardBlock(block, bins, c, reduced, 0, g);
  }

  // ---- The decoder's loops ----

  method ComputeAll(codewords: seq<seq<bool>>, cr: nat) returns (nibbles: seq<Nibble>)
    requires 5 <= cr <= 8 && IsMatrix(codewords, |codewords|, cr)
    ensures nibbles == DecodeAll(codewords, cr)
  {
    nibbles := [];
    for r := 0 to |codewords|
      invariant |nibbles| == r && forall i :: 0 <= i < r ==> nibbles[i] == DecodeAll(codewords, cr)[i]
    {
      var nibble := HammingDecode(codewords[r]);
      nibbles := nibbles + [nibble];
    }
  }

  method ComputeSoftAll(rows: seq<seq<real>>, cr: nat) returns (nibbles: seq<Nibble>)
    requires 5 <= cr <= 8 && IsMatrix(rows, |rows|, cr)
    ensures nibbles == SoftDecodeAll(rows, cr)
  {
    nibbles := [];
    ghost var want := SoftDecodeAll(rows, cr);
    for r := 0 to |rows|
      invariant nibbles == want[..r]
    {
      var nibble := ComputeSoftRow(rows, cr, r);
      nibbles := nibbles + [nibble];
    }
  }

  method ComputeSoftRow(rows: seq<seq<real>>, cr: nat, r: nat) returns (nibble: Nibble)
    requires 5 <= cr <= 8 && IsMatrix(rows, |rows|, cr) && r < |rows|
    ensures nibble == SoftDecodeAll(rows, cr)[r]
  {
    nibble := SoftDecode(rows[r]);
  }

  // What the decoder keeps of a symbol: its demapped bits, or its soft bits.
  datatype Kept = Hard(bits: seq<bool>) | Soft(llrs: seq<real>)

  function KeptOf(y: Symbol, c: Config, reduced: bool): Kept
    requires ValidConfig(c) && ValidSymbol(y, c)
  {
    if c.soft then Soft(Llrs(y.power, BinTable(c.sf, reduced), BitsPerSymbol(c.sf, reduced)))
    else Hard(SymbolBits(y.bin, c.preambleBin, c.sf, reduced))
  }

  method Keep(y: Symbol, c: Config, reduced: bool) returns (kept: Kept)
    requires ValidConfig(c) && ValidSymbol(y, c)
    ensures kept == KeptOf(y, c, reduced)
  {
    if c.soft {
      var llrs := ComputeLlrs(y.power, c.sf, reduced);
      kept := Soft(llrs);
    } else {
      kept := Hard(SymbolBits(y.bin, c.preambleBin, c.sf, reduced));
    }
  }

  function KeptAll(block: seq<Symbol>, c: Config, reduced: bool): (kept: seq<Kept>)
    requires ValidConfig(c) && ValidSymbols(block, c)
    ensures |kept| == |block|
  {
    seq(|block|, i requires 0 <= i < |block| => KeptOf(block[i], c, reduced))
  }

  // Deinterleave and decode one block of kept symbols.
  method ComputeBlock(kept: seq<Kept>, c: Config, reduced: bool, ghost block: seq<Symbol>)
    returns (nibbles: seq<Nibble>)
    requires ValidConfig(c) && ValidSymbols(block, c) && 5 <= |kept| <= 8
    requires kept == KeptAll(block, c, reduced)
    ensures nibbles == DecodeBlock(block, c, reduced)
  {
    var n := BitsPerSymbol(c.sf, reduced);
    if c.soft {
      var llrs := seq(|kept|, i requires 0 <= i < |kept| && kept[i].Soft? => kept[i].llrs);
      assert llrs == SoftSymbols(block, c, reduced);
      var rows := DeinterleaveRows(llrs, n);
      nibbles := ComputeSoftAll(rows, |kept|);
    } else {
      var symbols := seq(|kept|, i requires 0 <= i < |kept| && kept[i].Hard? => kept[i].bits);
      assert symbols == HardSymbols(block, c, reduced);
      var codewords := DeinterleaveRows(symbols, n);
      nibbles := ComputeAll(codewords, |kept|);
    }
  }
}
