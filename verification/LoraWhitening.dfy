/** The LoRa whitening sequence (`LORA_WHITEN`, `lora_dewhiten`). */
module LoraWhitening {
  import opened Bits

  const ROWS: seq<seq<nat>> :=
    [[0xff, 0xfe, 0xfc, 0xf8, 0xf0, 0xe1, 0xc2, 0x85, 0x0b, 0x17, 0x2f, 0x5e, 0xbc, 0x78, 0xf1, 0xe3],
     [0xc6, 0x8d, 0x1a, 0x34, 0x68, 0xd0, 0xa0, 0x40, 0x80, 0x01, 0x02, 0x04, 0x08, 0x11, 0x23, 0x47],
     [0x8e, 0x1c, 0x38, 0x71, 0xe2, 0xc4, 0x89, 0x12, 0x25, 0x4b, 0x97, 0x2e, 0x5c, 0xb8, 0x70, 0xe0],
     [0xc0, 0x81, 0x03, 0x06, 0x0c, 0x19, 0x32, 0x64, 0xc9, 0x92, 0x24, 0x49, 0x93, 0x26, 0x4d, 0x9b],
     [0x37, 0x6e, 0xdc, 0xb9, 0x72, 0xe4, 0xc8, 0x90, 0x20, 0x41, 0x82, 0x05, 0x0a, 0x15, 0x2b, 0x56],
     [0xad, 0x5b, 0xb6, 0x6d, 0xda, 0xb5, 0x6b, 0xd6, 0xac, 0x59, 0xb2, 0x65, 0xcb, 0x96, 0x2c, 0x58],
     [0xb0, 0x61, 0xc3, 0x87, 0x0f, 0x1f, 0x3e, 0x7d, 0xfb, 0xf6, 0xed, 0xdb, 0xb7, 0x6f, 0xde, 0xbd],
     [0x7a, 0xf5, 0xeb, 0xd7, 0xae, 0x5d, 0xba, 0x74, 0xe8, 0xd1, 0xa2, 0x44, 0x88, 0x10, 0x21, 0x43],
     [0x86, 0x0d, 0x1b, 0x36, 0x6c, 0xd8, 0xb1, 0x63, 0xc7, 0x8f, 0x1e, 0x3c, 0x79, 0xf3, 0xe7, 0xce],
     [0x9c, 0x39, 0x73, 0xe6, 0xcc, 0x98, 0x31, 0x62, 0xc5, 0x8b, 0x16, 0x2d, 0x5a, 0xb4, 0x69, 0xd2],
     [0xa4, 0x48, 0x91, 0x22, 0x45, 0x8a, 0x14, 0x29, 0x52, 0xa5, 0x4a, 0x95, 0x2a, 0x54, 0xa9, 0x53],
     [0xa7, 0x4e, 0x9d, 0x3b, 0x77, 0xee, 0xdd, 0xbb, 0x76, 0xec, 0xd9, 0xb3, 0x67, 0xcf, 0x9e, 0x3d],
     [0x7b, 0xf7, 0xef, 0xdf, 0xbf, 0x7e, 0xfd, 0xfa, 0xf4, 0xe9, 0xd3, 0xa6, 0x4c, 0x99, 0x33, 0x66],
     [0xcd, 0x9a, 0x35, 0x6a, 0xd4, 0xa8, 0x51, 0xa3, 0x46, 0x8c, 0x18, 0x30, 0x60, 0xc1, 0x83, 0x07],
     [0x0e, 0x1d, 0x3a, 0x75, 0xea, 0xd5, 0xaa, 0x55, 0xab, 0x57, 0xaf, 0x5f, 0xbe, 0x7c, 0xf9, 0xf2],
     [0xe5, 0xca, 0x94, 0x28, 0x50, 0xa1, 0x42, 0x84, 0x09, 0x13, 0x27, 0x4f, 0x9f, 0x3f, 0x7f, 0x00]]

  // Entry i of the table.
  function Entry(i: nat): nat
    requires i < 256
  {
    ROWS[i / 16][i % 16]
  }

  function Whitener(): (mask: seq<nat>)
    ensures |mask| == 256
  {
    seq(256, i requires 0 <= i < 256 => Entry(i))
  }

  // ---- The table is a shift register's output ----

  function Less(x: nat, k: nat): nat {
    if x >= k then x - k else x
  }

  // Shifted left, with the sum of bits 7, 5, 4 and 3 as the new bit 0.
  function Next(x: nat): nat {
    var y := Less(x, 128);
    var z := Less(y, 64);
    var u := Less(z, 32);
    var v := Less(u, 16);
    2 * y + Unit(((x >= 128) != (z >= 32)) != ((u >= 16) != (v >= 8)))
  }

  predicate Steps(row: seq<nat>, c: nat) {
    |row| == 16 && c < 15 && row[c + 1] == Next(row[c])
  }

  lemma Row0(c: nat)
    requires c < 15
    ensures Steps(ROWS[0], c)
  {}

  lemma Row1(c: nat)
    requires c < 15
    ensures Steps(ROWS[1], c)
  {}

  lemma Row2(c: nat)
    requires c < 15
    ensures Steps(ROWS[2], c)
  {}

  lemma Row3(c: nat)
    requires c < 15
    ensures Steps(ROWS[3], c)
  {}

  lemma Row4(c: nat)
    requires c < 15
    ensures Steps(ROWS[4], c)
  {}

  lemma Row5(c: nat)
    requires c < 15
    ensures Steps(ROWS[5], c)
  {}

  lemma Row6(c: nat)
    requires c < 15
    ensures Steps(ROWS[6], c)
  {}

  lemma Row7(c: nat)
    requires c < 15
    ensures Steps(ROWS[7], c)
  {}

  lemma Row8(c: nat)
    requires c < 15
    ensures Steps(ROWS[8], c)
  {}

  lemma Row9(c: nat)
    requires c < 15
    ensures Steps(ROWS[9], c)
  {}

  lemma Row10(c: nat)
    requires c < 15
    ensures Steps(ROWS[10], c)
  {}

  lemma Row11(c: nat)
    requires c < 15
    ensures Steps(ROWS[11], c)
  {}

  lemma Row12(c: nat)
    requires c < 15
    ensures Steps(ROWS[12], c)
  {}

  lemma Row13(c: nat)
    requires c < 15
    ensures Steps(ROWS[13], c)
  {}

  lemma Row14(c: nat)
    requires c < 15
    ensures Steps(ROWS[14], c)
  {}

  lemma Row15(c: nat)
    requires c < 14
    ensures Steps(ROWS[15], c)
  {}

  lemma RowSteps(r: nat, c: nat)
    requires r < 16 && c < 15 && (r == 15 ==> c < 14)
    ensures Steps(ROWS[r], c)
  {
    match r
    case 0 => Row0(c);
    case 1 => Row1(c);
    case 2 => Row2(c);
    case 3 => Row3(c);
    case 4 => Row4(c);
    case 5 => Row5(c);
    case 6 => Row6(c);
    case 7 => Row7(c);
    case 8 => Row8(c);
    case 9 => Row9(c);
    case 10 => Row10(c);
    case 11 => Row11(c);
    case 12 => Row12(c);
    case 13 => Row13(c);
    case 14 => Row14(c);
    case 15 => Row15(c);
  }

  lemma RowsJoin(r: nat)
    requires r < 15
    ensures |ROWS[r]| == |ROWS[r + 1]| == 16 && ROWS[r + 1][0] == Next(ROWS[r][15])
  {}

  // Each of the first 255 entries is the register's next state after the entry before it.
  lemma EntrySteps(i: nat)
    requires i < 254
    ensures Entry(i + 1) == Next(Entry(i))
  {
    var r, c := i / 16, i % 16;
    if c < 15 {
      RowSteps(r, c);
      assert (i + 1) / 16 == r && (i + 1) % 16 == c + 1;
    } else {
      RowsJoin(r);
      assert (i + 1) / 16 == r + 1 && (i + 1) % 16 == 0;
    }
  }

  // The register's state after i steps from all ones, as bits.
  function Register(i: nat): (b: Byte) {
    if i == 0 then [true, true, true, true, true, true, true, true]
    else
      Shifted(Register(i - 1))
  }

  function Shifted(b: Byte): Byte {
    [(b[7] != b[5]) != (b[4] != b[3])] + b[..7]
  }

  lemma ValueByte(b: Byte)
    ensures Value(b) == Number(b[..4]) + 16 * Number(b[4..])
  {
    assert b[0..] == b;
    ValueFrom(b, 0);
    ValueFrom(b, 1);
    ValueFrom(b, 2);
    ValueFrom(b, 3);
    NumberIsValue(b[4..]);
  }

  // The highest bit of a number taken off.
  lemma Peel(x: nat, k: nat, high: bool, low: nat)
    requires x == low + k * Unit(high) && low < k
    ensures (x >= k) == high && Less(x, k) == low
  {}

  lemma NextIs(x: nat, low: nat, b: Byte)
    requires low == Number(b[..4]) && x == low + 16 * Number(b[4..])
    ensures Next(x) ==
      2 * (low + 16 * Unit(b[4]) + 32 * Unit(b[5]) + 64 * Unit(b[6])) + Unit((b[7] != b[5]) != (b[4] != b[3]))
  {
    var u := low + 16 * Unit(b[4]);
    var z := u + 32 * Unit(b[5]);
    var y := z + 64 * Unit(b[6]);
    Peel(y + 128 * Unit(b[7]), 128, b[7], y);
    Peel(y, 64, b[6], z);
    Peel(z, 32, b[5], u);
    Peel(u, 16, b[4], low);
  }

  lemma ShiftedHalves(b: Byte)
    ensures Number(Shifted(b)[..4]) == Unit((b[7] != b[5]) != (b[4] != b[3])) + 2 * (Number(b[..4]) - 8 * Unit(b[3]))
    ensures Number(Shifted(b)[4..]) == Unit(b[3]) + 2 * (Unit(b[4]) + 2 * Unit(b[5]) + 4 * Unit(b[6]))
  {}

  lemma NextValue(b: Byte)
    ensures Next(Value(b)) == Value(Shifted(b))
  {
    ValueByte(b);
    ValueByte(Shifted(b));
    ShiftedHalves(b);
    NextIs(Value(b), Number(b[..4]), b);
  }

  lemma {:induction false} EntryIs(i: nat)
    requires i < 255
    ensures Entry(i) == Value(Register(i))
  {
    if i == 0 {
      ValueByte(Register(0));
    } else {
      EntryIs(i - 1);
      EntrySteps(i - 1);
      NextValue(Register(i - 1));
    }
  }

  // `data[i] ^= mask[i]` for as many bytes as the mask has
  function ApplyMask(data: seq<Byte>, mask: seq<nat>): (r: seq<Byte>)
    ensures |r| == |data|
  {
    seq(|data|, i requires 0 <= i < |data| =>
      if i < |mask| then Xor(data[i], ToBits(mask[i], 8)) else data[i])
  }

  function Whiten(data: seq<Byte>): (r: seq<Byte>)
    ensures |r| == |data|
  {
    ApplyMask(data, Whitener())
  }

  lemma ApplyMaskTwice(data: seq<Byte>, mask: seq<nat>)
    ensures ApplyMask(ApplyMask(data, mask), mask) == data
  {
    forall i | 0 <= i < |data|
      ensures ApplyMask(ApplyMask(data, mask), mask)[i] == data[i]
    {
      if i < |mask| {
        XorLaws(data[i], ToBits(mask[i], 8));
      }
    }
  }

  // Byte i of a payload, which has at most 255, is summed with the state of the register
  // after i steps.
  lemma WhitenIs(data: seq<Byte>, i: nat)
    requires i < |data| <= 255
    ensures Whiten(data)[i] == Xor(data[i], Register(i))
  {
    EntryIs(i);
    ToBitsValue(Register(i));
  }

  // Whitening is its own inverse.
  lemma WhitenTwice(data: seq<Byte>)
    ensures Whiten(Whiten(data)) == data
  {
    ApplyMaskTwice(data, Whitener());
  }

  method MaskInPlace(data: array<Byte>, len: nat, mask: seq<nat>)
    requires len <= data.Length
    modifies data
    ensures data[..len] == ApplyMask(old(data[..len]), mask) && data[len..] == old(data[len..])
  {
    var n := if len > |mask| then |mask| else len;
    for i := 0 to n
      invariant forall k :: 0 <= k < i ==> data[k] == Xor(old(data[k]), ToBits(mask[k], 8))
      invariant forall k :: i <= k < data.Length ==> data[k] == old(data[k])
    {
      data[i] := Xor(data[i], ToBits(mask[i], 8));
    }
  }

  // lora_dewhiten on the first `len` bytes of a buffer
  method Dewhiten(data: array<Byte>, len: nat)
    requires len <= data.Length
    modifies data
    ensures data[..len] == Whiten(old(data[..len])) && data[len..] == old(data[len..])
  {
    MaskInPlace(data, len, Whitener());
  }
}
