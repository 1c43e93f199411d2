/**
 Soft bits of one symbol (`compute_symbol_llrs`): for each bit, the strongest FFT bin
 whose symbol value has it set against the strongest one whose value has it clear.
 */
module SymbolLlrs {
  import opened Bits
  import opened LoraSoft
  import opened LoraSymbols

  // The symbol bits of every bin, most significant first.
  ghost predicate IsTable(table: seq<seq<bool>>, bits: nat) {
    forall n :: 0 <= n < |table| ==> |table[n]| == bits
  }

  // The bins as the source reads them here: no preamble bin is subtracted.
  function BinTable(sf: nat, reduced: bool): (table: seq<seq<bool>>)
    requires 7 <= sf <= 12
    ensures |table| == Pow2(sf) && IsTable(table, BitsPerSymbol(sf, reduced))
  {
    seq(Pow2(sf), n requires 0 <= n < Pow2(sf) => SymbolBits(n, 0, sf, reduced))
  }

  // The greatest power among the bins whose bit j is `want`, and zero.
  function Strongest(power: seq<real>, table: seq<seq<bool>>, bits: nat, j: nat, want: bool): real
    requires |power| <= |table| && j < bits && IsTable(table, bits)
    decreases |power|
  {
    if power == [] then 0.0
    else
      var n := |power| - 1;
      var rest := Strongest(power[..n], table, bits, j, want);
      if table[n][j] == want && power[n] > rest then power[n] else rest
  }

  function Llr(power: seq<real>, table: seq<seq<bool>>, bits: nat, j: nat): real
    requires |power| <= |table| && j < bits && IsTable(table, bits)
  {
    Strongest(power, table, bits, j, true) - Strongest(power, table, bits, j, false)
  }

  function Llrs(power: seq<real>, table: seq<seq<bool>>, bits: nat): (llrs: seq<real>)
    requires |power| <= |table| && IsTable(table, bits)
    ensures |llrs| == bits
  {
    seq(bits, j requires 0 <= j < bits => Llr(power, table, bits, j))
  }

  // ---- What the soft bits say ----

  lemma {:induction false} StrongestAtLeast(
    power: seq<real>, table: seq<seq<bool>>, bits: nat, j: nat, want: bool, p: nat)
    requires |power| <= |table| && j < bits && IsTable(table, bits)
    ensures Strongest(power, table, bits, j, want) >= 0.0
    ensures p < |power| && table[p][j] == want ==> Strongest(power, table, bits, j, want) >= power[p]
    decreases |power|
  {
    if power != [] {
      StrongestAtLeast(power[..|power| - 1], table, bits, j, want, p);
    }
  }

  lemma {:induction false} StrongestAtMost(
    power: seq<real>, table: seq<seq<bool>>, bits: nat, j: nat, want: bool, bound: real)
    requires |power| <= |table| && j < bits && IsTable(table, bits) && bound >= 0.0
    requires forall n :: 0 <= n < |power| && table[n][j] == want ==> power[n] <= bound
    ensures Strongest(power, table, bits, j, want) <= bound
    decreases |power|
  {
    if power != [] {
      StrongestAtMost(power[..|power| - 1], table, bits, j, want, bound);
    }
  }

  // x is the greatest power among the bins whose bit j is `want`, zero if none is positive.
  ghost predicate IsPeak(power: seq<real>, table: seq<seq<bool>>, bits: nat, j: nat, want: bool, x: real)
    requires |power| <= |table| && j < bits && IsTable(table, bits)
  {
    && x >= 0.0
    && (forall n :: 0 <= n < |power| && table[n][j] == want ==> power[n] <= x)
    && (x == 0.0 || exists n :: 0 <= n < |power| && table[n][j] == want && power[n] == x)
  }

  lemma PeakIsStrongest(power: seq<real>, table: seq<seq<bool>>, bits: nat, j: nat, want: bool, x: real)
    requires |power| <= |table| && j < bits && IsTable(table, bits) && IsPeak(power, table, bits, j, want, x)
    ensures Strongest(power, table, bits, j, want) == x
  {
    StrongestAtMost(power, table, bits, j, want, x);
    StrongestAtLeast(power, table, bits, j, want, 0);
    if x > 0.0 {
      var n :| 0 <= n < |power| && table[n][j] == want && power[n] == x;
      StrongestAtLeast(power, table, bits, j, want, n);
    }
  }

  // Soft bit j is the greatest power of the bins that have it set less that of the others.
  lemma LlrIs(power: seq<real>, table: seq<seq<bool>>, bits: nat, j: nat, one: real, zero: real)
    requires |power| <= |table| && j < bits && IsTable(table, bits)
    requires IsPeak(power, table, bits, j, true, one) && IsPeak(power, table, bits, j, false, zero)
    ensures Llrs(power, table, bits)[j] == one - zero
  {
    PeakIsStrongest(power, table, bits, j, true, one);
    PeakIsStrongest(power, table, bits, j, false, zero);
  }

  // Bin p is heard with margin g over every bin of another symbol value.
  ghost predicate Heard(power: seq<real>, table: seq<seq<bool>>, p: int, g: real)
    requires |power| <= |table|
  {
    && 0.0 < g && 0 <= p < |power| && g <= power[p]
    && forall n :: 0 <= n < |power| && table[n] != table[p] ==> power[n] <= power[p] - g
  }

  // No bin reaches the limit.
  predicate Faded(power: seq<real>, limit: real) {
    0.0 < limit && forall n :: 0 <= n < |power| ==> power[n] < limit
  }

  // Each soft bit of a heard symbol has the sign of its bit and at least the margin.
  lemma HeardLlr(power: seq<real>, table: seq<seq<bool>>, bits: nat, p: nat, g: real, j: nat)
    requires |power| <= |table| && j < bits && IsTable(table, bits) && Heard(power, table, p, g)
    ensures Signed(Llr(power, table, bits, j), table[p][j]) >= g
  {
    var bit := table[p][j];
    StrongestAtLeast(power, table, bits, j, bit, p);
    forall n | 0 <= n < |power| && table[n][j] == !bit
      ensures power[n] <= power[p] - g
    {
      assert table[n] != table[p];
    }
    StrongestAtMost(power, table, bits, j, !bit, power[p] - g);
  }

  lemma {:induction false} StrongestBelow(
    power: seq<real>, table: seq<seq<bool>>, bits: nat, j: nat, want: bool, limit: real)
    requires |power| <= |table| && j < bits && IsTable(table, bits) && Faded(power, limit)
    ensures Strongest(power, table, bits, j, want) < limit
    decreases |power|
  {
    if power != [] {
      StrongestBelow(power[..|power| - 1], table, bits, j, want, limit);
    }
  }

  // The soft bits of a faded symbol, right or wrong, stay below the limit.
  lemma FadedLlr(power: seq<real>, table: seq<seq<bool>>, bits: nat, limit: real, j: nat, bit: bool)
    requires |power| <= |table| && j < bits && IsTable(table, bits) && Faded(power, limit)
    ensures Signed(Llr(power, table, bits, j), bit) > -limit
  {
    StrongestBelow(power, table, bits, j, !bit, limit);
    StrongestAtLeast(power, table, bits, j, bit, 0);
  }

  // ---- A strictly strongest bin is heard ----

  ghost predicate Loudest(power: seq<real>, p: int) {
    && 0 <= p < |power| && 0.0 < power[p]
    && forall n :: 0 <= n < |power| && n != p ==> power[n] < power[p]
  }

  // The least distance of the first k bins from the power of bin p.
  ghost function Margin(power: seq<real>, p: nat, k: nat): real
    requires p < |power| && k <= |power|
  {
    if k == 0 then power[p]
    else
      var rest := Margin(power, p, k - 1);
      if k - 1 != p && power[p] - power[k - 1] < rest then power[p] - power[k - 1] else rest
  }

  lemma {:induction false} MarginIs(power: seq<real>, p: nat, k: nat)
    requires Loudest(power, p) && k <= |power|
    ensures 0.0 < Margin(power, p, k) <= power[p]
    ensures forall n :: 0 <= n < k && n != p ==> power[n] <= power[p] - Margin(power, p, k)
  {
    if k > 0 {
      MarginIs(power, p, k - 1);
    }
  }

  lemma LoudestIsHeard(power: seq<real>, table: seq<seq<bool>>, p: nat)
    requires |power| <= |table| && Loudest(power, p)
    ensures Heard(power, table, p, Margin(power, p, |power|))
  {
    MarginIs(power, p, |power|);
  }

  // ---- The loop over the bins ----

  // The two accumulators per bit, bit i of the value at index i.
  ghost predicate Accumulated(max1: seq<real>, max0: seq<real>, power: seq<real>,
                              table: seq<seq<bool>>, bits: nat)
    requires |power| <= |table| && IsTable(table, bits)
  {
    && |max1| == |max0| == bits
    && forall i :: 0 <= i < bits ==>
        && max1[i] == Strongest(power, table, bits, bits - 1 - i, true)
        && max0[i] == Strongest(power, table, bits, bits - 1 - i, false)
  }

  // One bin's power enters one accumulator of every bit.
  method Accumulate(max1: array<real>, max0: array<real>, value: seq<bool>, ll: real)
    requires max1.Length == max0.Length == |value| && max1 != max0
    modifies max1, max0
    ensures forall i :: 0 <= i < |value| ==>
      && max1[i] == (if value[|value| - 1 - i] && ll > old(max1[i]) then ll else old(max1[i]))
      && max0[i] == (if !value[|value| - 1 - i] && ll > old(max0[i]) then ll else old(max0[i]))
  {
    for i := 0 to |value|
      invariant forall k :: 0 <= k < i ==>
        && max1[k] == (if value[|value| - 1 - k] && ll > old(max1[k]) then ll else old(max1[k]))
        && max0[k] == (if !value[|value| - 1 - k] && ll > old(max0[k]) then ll else old(max0[k]))
      invariant forall k :: i <= k < |value| ==> max1[k] == old(max1[k]) && max0[k] == old(max0[k])
    {
      if value[|value| - 1 - i] {
        if ll > max1[i] { max1[i] := ll; }
      } else {
        if ll > max0[i] { max0[i] := ll; }
      }
    }
  }

  lemma AccumulatedNext(max1: seq<real>, max0: seq<real>, next1: seq<real>, next0: seq<real>,
                        power: seq<real>, n: nat, table: seq<seq<bool>>, bits: nat)
    requires n < |power| <= |table| && IsTable(table, bits)
    requires Accumulated(max1, max0, power[..n], table, bits) && |next1| == |next0| == bits
    requires forall i :: 0 <= i < bits ==>
      && next1[i] == (if table[n][bits - 1 - i] && power[n] > max1[i] then power[n] else max1[i])
      && next0[i] == (if !table[n][bits - 1 - i] && power[n] > max0[i] then power[n] else max0[i])
    ensures Accumulated(next1, next0, power[..n + 1], table, bits)
  {
    assert power[..n + 1][..n] == power[..n];
  }

  method BinValue(n: nat, sf: nat, reduced: bool) returns (value: seq<bool>)
    requires 7 <= sf <= 12 && n < Pow2(sf)
    ensures value == BinTable(sf, reduced)[n]
  {
    value := SymbolBits(n, 0, sf, reduced);
  }

  // The differences, most significant bit first.
  method Differences(max1: array<real>, max0: array<real>, ghost power: seq<real>,
                     ghost table: seq<seq<bool>>, bits: nat)
    returns (llrs: seq<real>)
    requires |power| <= |table| && IsTable(table, bits)
    requires Accumulated(max1[..], max0[..], power, table, bits)
    ensures llrs == Llrs(power, table, bits)
  {
    llrs := seq(bits, j requires 0 <= j < bits reads max1, max0 => max1[bits - 1 - j] - max0[bits - 1 - j]);
    forall j | 0 <= j < bits
      ensures llrs[j] == Llr(power, table, bits, j)
    {
      assert max1[..][bits - 1 - j] == max1[bits - 1 - j] && max0[..][bits - 1 - j] == max0[bits - 1 - j];
    }
  }

  method AccumulateBin(max1: array<real>, max0: array<real>, value: seq<bool>, ghost power: seq<real>, n: nat,
                       ll: real, ghost table: seq<seq<bool>>)
    requires n < |power| <= |table| && IsTable(table, |value|) && value == table[n] && ll == power[n]
    requires max1 != max0 && Accumulated(max1[..], max0[..], power[..n], table, |value|)
    modifies max1, max0
    ensures Accumulated(max1[..], max0[..], power[..n + 1], table, |value|)
  {
    ghost var was1, was0 := max1[..], max0[..];
    Accumulate(max1, max0, value, ll);
    AccumulatedNext(was1, was0, max1[..], max0[..], power, n, table, |value|);
  }

  method ComputeLlrs(power: seq<real>, sf: nat, reduced: bool) returns (llrs: seq<real>)
    requires 7 <= sf <= 12 && |power| == Pow2(sf)
    ensures llrs == Llrs(power, BinTable(sf, reduced), BitsPerSymbol(sf, reduced))
  {
    var bits := BitsPerSymbol(sf, reduced);
    ghost var table := BinTable(sf, reduced);
    var max1 := new real[bits](_ => 0.0);
    var max0 := new real[bits](_ => 0.0);
    for n := 0 to |power|
      invariant Accumulated(max1[..], max0[..], power[..n], table, bits)
    {
      var value := BinValue(n, sf, reduced);
      AccumulateBin(max1, max0, value, power, n, power[n], table);
    }
    assert power[..|power|] == power;
    llrs := Differences(max1, max0, power, table, bits);
  }
}
