/**
 What the five check bits of the LoRa header are good for: which nibbles are accepted as a
 header, with what fields, and that one or two wrong bits never are.
 */
module HeaderErrors {
  import opened Bits
  import opened LoraBlocks
  import opened LoraFrame
  import opened LoraHamming
  import opened LoraSymbols
  import opened Wrappers

  // ---- The code ----

  // The protected bits: three nibbles of fields, then the five check bits, the highest of
  // them in the fourth nibble.
  const PROTECTED := 17

  function NibbleOf(p: nat): nat {
    if p < 12 then p / 4 else if p == 12 then 3 else 4
  }

  function BitOf(p: nat): nat {
    if p < 12 then p % 4 else if p == 12 then 0 else p - 13
  }

  function Protected(n: seq<Nibble>, p: nat): bool
    requires |n| >= 5 && p < PROTECTED
  {
    n[NibbleOf(p)][BitOf(p)]
  }

  // The check bits that cover protected bit p, as a number.
  function Weight(p: nat): (w: nat)
    requires p < PROTECTED
    ensures 0 < w < 32
  {
    [17, 18, 20, 24, 6, 9, 10, 12, 11, 7, 3, 5, 16, 1, 2, 4, 8][p]
  }

  // Check bit k covers protected bit p.
  predicate Covers(p: nat, k: nat)
    requires p < PROTECTED && k < 5
  {
    var w := Weight(p);
    if k == 0 then w % 2 == 1
    else if k == 1 then w / 2 % 2 == 1
    else if k == 2 then w / 4 % 2 == 1
    else if k == 3 then w / 8 % 2 == 1
    else w / 16 == 1
  }

  // The parity of the bits that check bit k covers, itself included.
  predicate Parity(n: seq<Nibble>, k: nat, count: nat)
    requires |n| >= 5 && k < 5 && count <= PROTECTED
  {
    count > 0 && (Parity(n, k, count - 1) != (Protected(n, count - 1) && Covers(count - 1, k)))
  }

  // All five parities are even.
  predicate Agrees(n: seq<Nibble>)
    requires |n| >= 5
  {
    forall k :: 0 <= k < 5 ==> !Parity(n, k, PROTECTED)
  }

  // What a nibble at protected bits p to p + 3 adds to a parity.
  predicate Adds(x: Nibble, p: nat, k: nat)
    requires p + 4 <= PROTECTED && k < 5
  {
    Xor4(x[0] && Covers(p, k), x[1] && Covers(p + 1, k), x[2] && Covers(p + 2, k), x[3] && Covers(p + 3, k))
  }

  lemma ParityNibble(n: seq<Nibble>, k: nat, p: nat, x: Nibble)
    requires |n| >= 5 && k < 5 && p + 4 <= PROTECTED
    requires forall i :: 0 <= i < 4 ==> Protected(n, p + i) == x[i]
    ensures Parity(n, k, p + 4) == (Parity(n, k, p) != Adds(x, p, k))
  {
    assert Protected(n, p + 0) == x[0] && Protected(n, p + 1) == x[1];
    assert Protected(n, p + 2) == x[2] && Protected(n, p + 3) == x[3];
    assert Parity(n, k, p + 1) == (Parity(n, k, p) != (x[0] && Covers(p, k)));
    assert Parity(n, k, p + 2) == (Parity(n, k, p + 1) != (x[1] && Covers(p + 1, k)));
    assert Parity(n, k, p + 3) == (Parity(n, k, p + 2) != (x[2] && Covers(p + 2, k)));
  }

  lemma ParityFields(n: seq<Nibble>, k: nat)
    requires |n| >= 5 && k < 5
    ensures Parity(n, k, 12) == (Adds(n[0], 0, k) != (Adds(n[1], 4, k) != Adds(n[2], 8, k)))
  {
    ParityNibble(n, k, 0, n[0]);
    ParityNibble(n, k, 4, n[1]);
    ParityNibble(n, k, 8, n[2]);
  }

  // The highest check bit stands in the fourth nibble.
  lemma ParityHigh(n: seq<Nibble>, k: nat)
    requires |n| >= 5 && k < 5
    ensures Parity(n, k, 13) == (Parity(n, k, 12) != (n[3][0] && k == 4))
  {
    assert Parity(n, k, 13) == (Parity(n, k, 12) != (n[3][0] && Covers(12, k)));
  }

  lemma ParityLow(n: seq<Nibble>, k: nat)
    requires |n| >= 5 && k < 5
    ensures Parity(n, k, PROTECTED) == (Parity(n, k, 13) != Adds(n[4], 13, k))
  {
    ParityNibble(n, k, 13, n[4]);
  }

  lemma ParityIs(n: seq<Nibble>, k: nat)
    requires |n| >= 5 && k < 5
    ensures Parity(n, k, PROTECTED) ==
      (Xor4(Adds(n[0], 0, k), Adds(n[1], 4, k), Adds(n[2], 8, k), Adds(n[4], 13, k)) != (n[3][0] && k == 4))
  {
    ParityFields(n, k);
    ParityHigh(n, k);
    ParityLow(n, k);
  }

  // What each nibble adds, check bit by check bit.
  lemma FirstAdds(x: Nibble, k: nat)
    requires k < 5
    ensures Adds(x, 0, k) == if k < 4 then x[k] else Xor4(x[3], x[2], x[1], x[0])
  {}

  lemma SecondAdds(x: Nibble, k: nat)
    requires k < 5
    ensures Adds(x, 4, k) == if k == 0 then x[1] else if k == 1 then x[0] != x[2] else if k == 2 then x[0] != x[3]
      else if k == 3 then x[1] != (x[2] != x[3]) else false
  {}

  lemma ThirdAdds(x: Nibble, k: nat)
    requires k < 5
    ensures Adds(x, 8, k) == if k == 0 then Xor4(x[0], x[1], x[2], x[3]) else if k == 1 then x[0] != (x[1] != x[2])
      else if k == 2 then x[1] != x[3] else if k == 3 then x[0] else false
  {}

  lemma LastAdds(x: Nibble, k: nat)
    requires k < 5
    ensures Adds(x, 13, k) == (k < 4 && x[k])
  {}

  lemma ParityIsCheck(n: seq<Nibble>, k: nat)
    requires |n| >= 5 && k < 5
    ensures Parity(n, k, PROTECTED) == ((n[4] + [n[3][0]])[k] != Checksum(n[0], n[1], n[2])[k])
  {
    ParityIs(n, k);
    FirstAdds(n[0], k);
    SecondAdds(n[1], k);
    ThirdAdds(n[2], k);
    LastAdds(n[4], k);
  }

  lemma AgreesIsCheck(n: seq<Nibble>)
    requires |n| >= 5
    ensures Agrees(n) <==> n[4] + [n[3][0]] == Checksum(n[0], n[1], n[2])
  {
    forall k | 0 <= k < 5
      ensures Parity(n, k, PROTECTED) == ((n[4] + [n[3][0]])[k] != Checksum(n[0], n[1], n[2])[k])
    {
      ParityIsCheck(n, k);
    }
  }

  // ---- What is accepted ----

  // Five nibbles are accepted as a header exactly when the five parities over their
  // protected bits are even and the length is not zero.
  lemma AcceptedIff(n: seq<Nibble>)
    requires |n| >= 5
    ensures ParseHeader(n).Some? <==> Agrees(n) && !(Number(n[0]) == Number(n[1]) == 0)
  {
    AgreesIsCheck(n);
    NumberIsValue(n[0]);
    NumberIsValue(n[1]);
  }

  // The coding rate by its three bits: 4/5 to 4/8 are 1 to 4, anything else reads as 4/5.
  function Rate(c: Nibble): nat {
    if c[1..] == [false, true, false] then 6
    else if c[1..] == [true, true, false] then 7
    else if c[1..] == [false, false, true] then 8
    else 5
  }

  lemma RateIs(c: Nibble)
    ensures var v := Value(c[1..]); Rate(c) == if 1 <= v <= 4 then v + 4 else 5
  {
    var t := c[1..];
    assert t == [c[1], c[2], c[3]];
    assert t[1..] == [c[2], c[3]] && [c[2], c[3]][1..] == [c[3]] && [c[3]][1..] == [];
    assert Value([c[3]]) == Unit(c[3]);
    assert Value([c[2], c[3]]) == Unit(c[2]) + 2 * Unit(c[3]);
    assert Value(t) == Unit(c[1]) + 2 * Unit(c[2]) + 4 * Unit(c[3]);
  }

  // The length is the first nibble above the second, the lowest bit of the third says
  // whether a CRC follows and its other bits are the rate.
  lemma AcceptedFields(n: seq<Nibble>)
    requires |n| >= 5 && ParseHeader(n).Some?
    ensures ParseHeader(n).value == Header(16 * Number(n[0]) + Number(n[1]), Rate(n[2]), n[2][0])
  {
    NumberIsValue(n[0]);
    NumberIsValue(n[1]);
    RateIs(n[2]);
  }

  // ---- Wrong bits ----

  function Strike(n: seq<Nibble>, p: nat): (r: seq<Nibble>)
    requires |n| >= 5 && p < PROTECTED
    ensures |r| == |n|
  {
    n[NibbleOf(p) := Invert(n[NibbleOf(p)], BitOf(p))]
  }

  lemma StrikeBit(n: seq<Nibble>, p: nat, q: nat)
    requires |n| >= 5 && p < PROTECTED && q < PROTECTED
    ensures Protected(Strike(n, p), q) == (Protected(n, q) != (p == q))
  {}

  lemma {:induction false} StrikeParity(n: seq<Nibble>, p: nat, k: nat, count: nat)
    requires |n| >= 5 && p < PROTECTED && k < 5 && count <= PROTECTED
    ensures Parity(Strike(n, p), k, count) == (Parity(n, k, count) != (p < count && Covers(p, k)))
  {
    if count > 0 {
      StrikeParity(n, p, k, count - 1);
      StrikeBit(n, p, count - 1);
    }
  }

  // Some check bit covers p.
  lemma Covered(p: nat) returns (k: nat)
    requires p < PROTECTED
    ensures k < 5 && Covers(p, k)
  {
    var w := Weight(p);
    k := if w % 2 == 1 then 0 else if w / 2 % 2 == 1 then 1 else if w / 4 % 2 == 1 then 2
      else if w / 8 % 2 == 1 then 3 else 4;
  }

  lemma WeightsDiffer(p: nat, q: nat)
    requires p < q < PROTECTED
    ensures Weight(p) != Weight(q)
  {}

  // Some check bit covers one of p and q only.
  lemma Separated(p: nat, q: nat) returns (k: nat)
    requires p < q < PROTECTED
    ensures k < 5 && Covers(p, k) != Covers(q, k)
  {
    var v, w := Weight(p), Weight(q);
    WeightsDiffer(p, q);
    k := if v % 2 != w % 2 then 0 else if v / 2 % 2 != w / 2 % 2 then 1 else if v / 4 % 2 != w / 4 % 2 then 2
      else if v / 8 % 2 != w / 8 % 2 then 3 else 4;
  }

  // No header survives one wrong bit.
  lemma OneWrongBitRefused(n: seq<Nibble>, p: nat)
    requires |n| >= 5 && ParseHeader(n).Some? && p < PROTECTED
    ensures ParseHeader(Strike(n, p)) == None
  {
    AcceptedIff(n);
    AcceptedIff(Strike(n, p));
    var k := Covered(p);
    StrikeParity(n, p, k, PROTECTED);
  }

  // Nor two.
  lemma TwoWrongBitsRefused(n: seq<Nibble>, p: nat, q: nat)
    requires |n| >= 5 && ParseHeader(n).Some? && p < q < PROTECTED
    ensures ParseHeader(Strike(Strike(n, p), q)) == None
  {
    AcceptedIff(n);
    AcceptedIff(Strike(Strike(n, p), q));
    var k := Separated(p, q);
    StrikeParity(n, p, k, PROTECTED);
    StrikeParity(Strike(n, p), q, k, PROTECTED);
  }

  // ---- The stream ----

  // The symbols start with a header block of these five nibbles.
  ghost predicate BlockArrives(n: seq<Nibble>, rest: seq<Nibble>, c: Config, offset: nat -> nat, symbols: seq<Symbol>)
    requires ValidConfig(c) && ValidSymbols(symbols, c) && |n| == 5 && |rest| == c.sf - 7
  {
    |symbols| >= 8 && Arrives(symbols[..8], EncodeBlock(n + rest, 8, c, true, offset), c, true)
  }

  lemma RefusedBlock(n: seq<Nibble>, rest: seq<Nibble>, c: Config, offset: nat -> nat, symbols: seq<Symbol>)
    requires ValidConfig(c) && ValidSymbols(symbols, c) && (c.soft ==> c.preambleBin == 0)
    requires |n| == 5 && |rest| == c.sf - 7 && BlockArrives(n, rest, c, offset, symbols) && ParseHeader(n) == None
    ensures DecodeStream(symbols, c) == Rejected
  {
    assert (n + rest)[..5] == n;
    SameHeader(n + rest, n);
    BlockParses(n + rest, c, offset, symbols[..8], None);
  }

  // A header block that arrives with one or two wrong bits among the protected ones is
  // rejected, whatever follows.
  lemma WrongHeaderRejected(h: Header, c: Config, p: nat, q: nat, rest: seq<Nibble>, offset: nat -> nat,
                            symbols: seq<Symbol>)
    requires ValidConfig(c) && ValidHeader(h) && ValidSymbols(symbols, c) && (c.soft ==> c.preambleBin == 0)
    requires p < q < PROTECTED && |rest| == c.sf - 7
    requires var one := Strike(HeaderNibbles(h), p);
      BlockArrives(one, rest, c, offset, symbols) || BlockArrives(Strike(one, q), rest, c, offset, symbols)
    ensures DecodeStream(symbols, c) == Rejected
  {
    var sent := HeaderNibbles(h);
    var one, two := Strike(sent, p), Strike(Strike(sent, p), q);
    HeaderRoundTrip(h, sent);
    OneWrongBitRefused(sent, p);
    TwoWrongBitsRefused(sent, p, q);
    if BlockArrives(one, rest, c, offset, symbols) {
      RefusedBlock(one, rest, c, offset, symbols);
    } else {
      RefusedBlock(two, rest, c, offset, symbols);
    }
  }
}
