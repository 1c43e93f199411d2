/**
 The header and payload stages of the LoRa decoder (`state_tick`), from symbols to
 delivered bytes, against a reference transmitter.
 */
module LoraFrame {
  import opened Arithmetic
  import opened Bits
  import opened LoraBlocks
  import opened LoraCrc
  import opened LoraSymbols
  import opened LoraWhitening
  import opened Wrappers

  const MAX_PAYLOAD_BYTES := 256
  const MAX_PAYLOAD_SYMBOLS := 1024

  // ---- Nibbles and bytes ----

  // Bytes from nibbles, low nibble first; an odd last nibble is left over.
  function Pack(nibbles: seq<Nibble>): (bytes: seq<Byte>)
    ensures |bytes| == |nibbles| / 2
  {
    seq(|nibbles| / 2, i requires 0 <= i < |nibbles| / 2 => Join(nibbles[2 * i], nibbles[2 * i + 1]))
  }

  function Join(lo: Nibble, hi: Nibble): Byte {
    [lo[0], lo[1], lo[2], lo[3], hi[0], hi[1], hi[2], hi[3]]
  }

  function Unpack(bytes: seq<Byte>): (nibbles: seq<Nibble>)
    ensures |nibbles| == 2 * |bytes|
  {
    seq(2 * |bytes|, i requires 0 <= i < 2 * |bytes| => if i % 2 == 0 then bytes[i / 2][..4] else bytes[i / 2][4..])
  }

  // Bit j of byte i is bit j % 4 of nibble 2 * i or, in the upper half, of the one after.
  lemma PackedBit(nibbles: seq<Nibble>, i: nat, j: nat)
    requires 2 * i + 1 < |nibbles| && j < 8
    ensures Pack(nibbles)[i][j] == nibbles[2 * i + j / 4][j % 4]
  {}

  lemma PackUnpack(bytes: seq<Byte>, nibbles: seq<Nibble>)
    requires |nibbles| >= 2 * |bytes| && nibbles[..2 * |bytes|] == Unpack(bytes)
    ensures Pack(nibbles)[..|bytes|] == bytes
  {
    forall i | 0 <= i < |bytes|
      ensures Pack(nibbles)[i] == bytes[i]
    {
      assert nibbles[2 * i] == nibbles[..2 * |bytes|][2 * i] == bytes[i][..4];
      assert nibbles[2 * i + 1] == nibbles[..2 * |bytes|][2 * i + 1] == bytes[i][4..];
    }
  }

  // ---- Header ----

  datatype Header = Header(len: nat, cr: nat, hasCrc: bool)

  predicate ValidHeader(h: Header) {
    1 <= h.len <= 255 && 5 <= h.cr <= 8
  }

  function Xor4(a: bool, b: bool, c: bool, d: bool): bool {
    (a != b) != (c != d)
  }

  // The five check bits over the first three nibbles, least significant first.
  function Checksum(a: Nibble, b: Nibble, c: Nibble): (r: seq<bool>)
    ensures |r| == 5
  {
    [Xor4(a[0], b[1], c[3], c[2]) != (c[1] != c[0]),
     Xor4(a[1], b[2], b[0], c[2]) != (c[1] != c[0]),
     Xor4(a[2], b[3], b[0], c[3]) != c[1],
     Xor4(a[3], b[3], b[2], b[1]) != c[0],
     Xor4(a[3], a[2], a[1], a[0])]
  }

  // The header fields, when the check bits agree and the payload is not empty.
  function ParseHeader(n: seq<Nibble>): Option<Header>
    requires |n| >= 5
  {
    var len := 16 * Value(n[0]) + Value(n[1]);
    var crApp := Value(n[2][1..]);
    var cr := if 1 <= crApp <= 4 then crApp + 4 else 5;
    var received := n[4] + [n[3][0]];
    if received == Checksum(n[0], n[1], n[2]) && len > 0 then Some(Header(len, cr, n[2][0])) else None
  }

  function HeaderNibbles(h: Header): (n: seq<Nibble>)
    requires ValidHeader(h)
    ensures |n| == 5
  {
    var a: Nibble, b: Nibble := ToBits(h.len / 16, 4), ToBits(h.len % 16, 4);
    var c: Nibble := [h.hasCrc] + ToBits(h.cr - 4, 3);
    var k := Checksum(a, b, c);
    [a, b, c, [k[4], false, false, false], k[..4]]
  }

  lemma FieldRoundTrip(v: nat, width: nat, bound: nat)
    requires bound == Pow2(width) && v < bound
    ensures Value(ToBits(v, width)) == v
  {
    ValueToBits(v, width);
  }

  predicate HasFields(m: seq<Nibble>, h: Header)
    requires |m| >= 5
  {
    && Value(m[0]) == h.len / 16 && Value(m[1]) == h.len % 16
    && Value(m[2][1..]) == h.cr - 4 && m[2][0] == h.hasCrc
  }

  lemma HeaderFields(h: Header)
    requires ValidHeader(h)
    ensures HasFields(HeaderNibbles(h), h)
  {
    assert Pow2(4) == 16 && Pow2(3) == 8;
    FieldRoundTrip(h.len / 16, 4, 16);
    FieldRoundTrip(h.len % 16, 4, 16);
    FieldRoundTrip(h.cr - 4, 3, 8);
    assert HeaderNibbles(h)[2][1..] == ToBits(h.cr - 4, 3);
  }

  lemma HeaderChecks(h: Header)
    requires ValidHeader(h)
    ensures var m := HeaderNibbles(h); m[4] + [m[3][0]] == Checksum(m[0], m[1], m[2])
  {}

  lemma HeaderRoundTrip(h: Header, n: seq<Nibble>)
    requires ValidHeader(h) && |n| >= 5 && n[..5] == HeaderNibbles(h)
    ensures ParseHeader(n) == Some(h)
  {
    HeaderFields(h);
    HeaderChecks(h);
    ParseIs(HeaderNibbles(h), h);
    SameHeader(n, HeaderNibbles(h));
  }

  lemma ParseIs(m: seq<Nibble>, h: Header)
    requires |m| >= 5 && ValidHeader(h) && HasFields(m, h)
    requires m[4] + [m[3][0]] == Checksum(m[0], m[1], m[2])
    ensures ParseHeader(m) == Some(h)
  {}

  // Only the first five nibbles matter.
  lemma SameHeader(n: seq<Nibble>, m: seq<Nibble>)
    requires |n| >= 5 && |m| == 5 && n[..5] == m
    ensures ParseHeader(n) == ParseHeader(m)
  {
    assert n[0] == n[..5][0] && n[1] == n[..5][1] && n[2] == n[..5][2] && n[3] == n[..5][3] && n[4] == n[..5][4];
  }

  // ---- How many payload symbols to expect ----

  function CeilDiv(a: nat, b: nat): nat
    requires b > 0
  {
    (a + b - 1) / b
  }

  function PayloadBytes(h: Header): nat {
    h.len + if h.hasCrc then 2 else 0
  }

  // Blocks by the decoder's formula, before the cap.
  function BlockCount(h: Header, c: Config): nat
    requires ValidConfig(c)
  {
    var numer := 2 * h.len - c.sf + 2 + 5 + (if h.hasCrc then 4 else 0);
    CeilDiv(if numer < 0 then 0 else numer, BitsPerSymbol(c.sf, c.ldro))
  }

  function SymbolTarget(h: Header, c: Config): nat
    requires ValidConfig(c)
  {
    var count := BlockCount(h, c) * h.cr;
    if count > MAX_PAYLOAD_SYMBOLS then MAX_PAYLOAD_SYMBOLS else count
  }

  lemma CeilDivIsLeast(a: nat, b: nat, k: nat)
    requires b > 0
    ensures CeilDiv(a, b) * b >= a
    ensures k * b >= a ==> k >= CeilDiv(a, b)
  {
    var q := CeilDiv(a, b);
    assert a + b - 1 == q * b + (a + b - 1) % b;
    if k < q {
      MulAtLeast(q - k, b);
      assert q * b == k * b + (q - k) * b;
    }
  }

  lemma BlockCountBound(h: Header, c: Config)
    requires ValidConfig(c) && ValidHeader(h)
    ensures BlockCount(h, c) * h.cr <= MAX_PAYLOAD_SYMBOLS
  {
    var n := BitsPerSymbol(c.sf, c.ldro);
    var need := 2 * PayloadBytes(h) - (c.sf - 7);
    CeilDivIsLeast(if need < 0 then 0 else need, n, 103);
    MulBound(BlockCount(h, c), 103, h.cr);
  }

  lemma MulBound(a: nat, b: nat, c: nat)
    requires a <= b && c <= 8
    ensures a * c <= b * 8
  {
    assert a * c <= a * 8;
  }

  // The target is the least whole number of blocks that, together with the sf - 7
  // nibbles left over in the header block, carries every nibble of payload and CRC.
  // The cap of 1024 symbols never takes effect.
  lemma TargetIsLeast(h: Header, c: Config, k: nat)
    requires ValidConfig(c) && ValidHeader(h)
    ensures SymbolTarget(h, c) == BlockCount(h, c) * h.cr
    ensures c.sf - 7 + BlockCount(h, c) * BitsPerSymbol(c.sf, c.ldro) >= 2 * PayloadBytes(h)
    ensures c.sf - 7 + k * BitsPerSymbol(c.sf, c.ldro) >= 2 * PayloadBytes(h) ==> k >= BlockCount(h, c)
  {
    BlockCountIsLeast(h, c, k);
    BlockCountBound(h, c);
  }

  lemma BlockCountIsLeast(h: Header, c: Config, k: nat)
    requires ValidConfig(c) && ValidHeader(h)
    ensures c.sf - 7 + BlockCount(h, c) * BitsPerSymbol(c.sf, c.ldro) >= 2 * PayloadBytes(h)
    ensures c.sf - 7 + k * BitsPerSymbol(c.sf, c.ldro) >= 2 * PayloadBytes(h) ==> k >= BlockCount(h, c)
  {
    var need := 2 * PayloadBytes(h) - (c.sf - 7);
    CeilDivIsLeast(if need < 0 then 0 else need, BitsPerSymbol(c.sf, c.ldro), k);
  }

  // ---- Payload ----

  // `blk + cr_p <= payload_sym_count`, block by block
  function DecodeBlocks(symbols: seq<Symbol>, cr: nat, c: Config): (nibbles: seq<Nibble>)
    requires ValidConfig(c) && ValidSymbols(symbols, c) && 5 <= cr <= 8
  {
    if |symbols| < cr then []
    else DecodeBlock(symbols[..cr], c, c.ldro) + DecodeBlocks(symbols[cr..], cr, c)
  }

  function FirstBytes(nibbles: seq<Nibble>): (bytes: seq<Byte>)
    ensures |bytes| <= MAX_PAYLOAD_BYTES
  {
    var all := Pack(nibbles);
    if |all| > MAX_PAYLOAD_BYTES then all[..MAX_PAYLOAD_BYTES] else all
  }

  // The bytes after clipping to payload and CRC, the payload part dewhitened.
  function ReceivedBytes(nibbles: seq<Nibble>, h: Header): (bytes: seq<Byte>) {
    Dewhitened(Clipped(FirstBytes(nibbles), PayloadBytes(h)), h.len)
  }

  predicate CrcOk(bytes: seq<Byte>, hasCrc: bool) {
    if hasCrc && |bytes| >= 4 then Passes(bytes) else !hasCrc
  }

  datatype Outcome =
    | Waiting                                      // for more symbols
    | Rejected                                     // header check failed
    | Empty(crcOk: bool)                           // no payload symbols expected
    | Delivered(bytes: seq<Byte>, crcOk: bool)     // payload and, if present, CRC

  // The payload stage, given all nibbles after the header.
  function DecodePayload(h: Header, nibbles: seq<Nibble>): Outcome {
    var bytes := ReceivedBytes(nibbles, h);
    Delivered(bytes, CrcOk(bytes, h.hasCrc))
  }

  lemma ParsedIsValid(n: seq<Nibble>)
    requires |n| >= 5 && ParseHeader(n).Some?
    ensures ValidHeader(ParseHeader(n).value)
  {
    assert Pow2(4) == 16 && Pow2(3) == 8;
  }

  // What the header block says: the fields, the payload nibbles left over in it, and how
  // many payload symbols to expect.
  datatype Parsed = Parsed(fields: Header, leftover: seq<Nibble>, target: nat)

  function ParseBlock(block: seq<Symbol>, c: Config): (p: Option<Parsed>)
    requires ValidConfig(c) && ValidSymbols(block, c) && |block| == 8
    ensures p.Some? ==> ValidHeader(p.value.fields)
  {
    ParseNibbles(DecodeBlock(block, c, true), c)
  }

  function ParseNibbles(n: seq<Nibble>, c: Config): (p: Option<Parsed>)
    requires ValidConfig(c) && |n| >= 5
    ensures p.Some? ==> ValidHeader(p.value.fields)
  {
    match ParseHeader(n)
    case None => None
    case Some(h) =>
      ParsedIsValid(n);
      Some(Parsed(h, n[5..], SymbolTarget(h, c)))
  }

  // What becomes of the symbols after the header block.
  function DecodeRest(p: Option<Parsed>, rest: seq<Symbol>, c: Config): Outcome
    requires ValidConfig(c) && ValidSymbols(rest, c) && (p.Some? ==> ValidHeader(p.value.fields))
  {
    match p
    case None => Rejected
    case Some(p) =>
      if p.target == 0 then Empty(!p.fields.hasCrc)
      else if |rest| < p.target then Waiting
      else DecodePayload(p.fields, p.leftover + DecodeBlocks(rest[..p.target], p.fields.cr, c))
  }

  // What becomes of the symbols received since the end of the preamble.
  function DecodeStream(symbols: seq<Symbol>, c: Config): Outcome
    requires ValidConfig(c) && ValidSymbols(symbols, c)
  {
    if |symbols| < 8 then Waiting else DecodeRest(ParseBlock(symbols[..8], c), symbols[8..], c)
  }

  // ---- The transmitter ----

  lemma OneBlockLess(blocks: nat, n: nat)
    requires blocks > 0
    ensures (blocks - 1) * n == blocks * n - n && n <= blocks * n
  {
    MulAtLeast(blocks, n);
  }

  function EncodeBlocks(nibbles: seq<Nibble>, blocks: nat, cr: nat, c: Config, offset: nat -> nat): (bins: seq<int>)
    requires ValidConfig(c) && 5 <= cr <= 8 && |nibbles| == blocks * BitsPerSymbol(c.sf, c.ldro)
    ensures |bins| == blocks * cr
    decreases blocks
  {
    var n := BitsPerSymbol(c.sf, c.ldro);
    if blocks == 0 then []
    else
      OneBlockLess(blocks, n);
      OneBlockLess(blocks, cr);
      EncodeBlock(nibbles[..n], cr, c, c.ldro, offset) + EncodeBlocks(nibbles[n..], blocks - 1, cr, c, offset)
  }

  lemma EncodeFirst(nibbles: seq<Nibble>, blocks: nat, cr: nat, c: Config, offset: nat -> nat)
    requires ValidConfig(c) && 5 <= cr <= 8 && |nibbles| == blocks * BitsPerSymbol(c.sf, c.ldro) && blocks > 0
    ensures var n := BitsPerSymbol(c.sf, c.ldro);
      && n <= |nibbles| && |nibbles[n..]| == (blocks - 1) * n
      && EncodeBlocks(nibbles, blocks, cr, c, offset) ==
        EncodeBlock(nibbles[..n], cr, c, c.ldro, offset) + EncodeBlocks(nibbles[n..], blocks - 1, cr, c, offset)
  {
    var n := BitsPerSymbol(c.sf, c.ldro);
    assert (blocks - 1) * n == blocks * n - n;
    MulAtLeast(blocks, n);
  }

  // All blocks reach the decoder.
  ghost predicate BlocksArrive(symbols: seq<Symbol>, bins: seq<int>, cr: nat, c: Config)
    requires ValidConfig(c) && ValidSymbols(symbols, c) && 5 <= cr <= 8
  {
    && |symbols| == |bins|
    && (|bins| >= cr ==>
        Arrives(symbols[..cr], bins[..cr], c, c.ldro) && BlocksArrive(symbols[cr..], bins[cr..], cr, c))
  }

  lemma FirstArrives(symbols: seq<Symbol>, first: seq<int>, rest: seq<int>, cr: nat, c: Config)
    requires ValidConfig(c) && ValidSymbols(symbols, c) && 5 <= cr <= 8 && |first| == cr
    requires BlocksArrive(symbols, first + rest, cr, c)
    ensures |symbols| >= cr
    ensures Arrives(symbols[..cr], first, c, c.ldro) && BlocksArrive(symbols[cr..], rest, cr, c)
    ensures DecodeBlocks(symbols, cr, c) == DecodeBlock(symbols[..cr], c, c.ldro) + DecodeBlocks(symbols[cr..], cr, c)
  {
    assert (first + rest)[..cr] == first && (first + rest)[cr..] == rest;
  }

  lemma {:induction false} BlocksRoundTrip(nibbles: seq<Nibble>, blocks: nat, cr: nat, c: Config, offset: nat -> nat,
                                           symbols: seq<Symbol>)
    requires ValidConfig(c) && ValidSymbols(symbols, c) && (c.soft ==> c.preambleBin == 0)
    requires 5 <= cr <= 8 && |nibbles| == blocks * BitsPerSymbol(c.sf, c.ldro)
    requires BlocksArrive(symbols, EncodeBlocks(nibbles, blocks, cr, c, offset), cr, c)
    ensures DecodeBlocks(symbols, cr, c) == nibbles
    decreases blocks
  {
    if blocks > 0 {
      var n := BitsPerSymbol(c.sf, c.ldro);
      FirstRoundTrip(nibbles, blocks, cr, c, offset, symbols);
      BlocksRoundTrip(nibbles[n..], blocks - 1, cr, c, offset, symbols[cr..]);
      Glued(DecodeBlocks(symbols, cr, c), DecodeBlock(symbols[..cr], c, c.ldro),
            DecodeBlocks(symbols[cr..], cr, c), nibbles, n);
    }
  }

  lemma FirstRoundTrip(nibbles: seq<Nibble>, blocks: nat, cr: nat, c: Config, offset: nat -> nat, symbols: seq<Symbol>)
    requires ValidConfig(c) && ValidSymbols(symbols, c) && (c.soft ==> c.preambleBin == 0)
    requires 5 <= cr <= 8 && |nibbles| == blocks * BitsPerSymbol(c.sf, c.ldro) && blocks > 0
    requires BlocksArrive(symbols, EncodeBlocks(nibbles, blocks, cr, c, offset), cr, c)
    ensures var n := BitsPerSymbol(c.sf, c.ldro);
      && n <= |nibbles| && |nibbles[n..]| == (blocks - 1) * n && |symbols| >= cr
      && BlocksArrive(symbols[cr..], EncodeBlocks(nibbles[n..], blocks - 1, cr, c, offset), cr, c)
      && DecodeBlocks(symbols, cr, c) == DecodeBlock(symbols[..cr], c, c.ldro) + DecodeBlocks(symbols[cr..], cr, c)
      && DecodeBlock(symbols[..cr], c, c.ldro) == nibbles[..n]
  {
    var n := BitsPerSymbol(c.sf, c.ldro);
    EncodeFirst(nibbles, blocks, cr, c, offset);
    var first := EncodeBlock(nibbles[..n], cr, c, c.ldro, offset);
    var rest := EncodeBlocks(nibbles[n..], blocks - 1, cr, c, offset);
    FirstArrives(symbols, first, rest, cr, c);
    BlockRoundTrip(nibbles[..n], cr, c, c.ldro, offset, symbols[..cr]);
  }

  lemma Glued(all: seq<Nibble>, first: seq<Nibble>, rest: seq<Nibble>, nibbles: seq<Nibble>, n: nat)
    requires n <= |nibbles| && all == first + rest && first == nibbles[..n] && rest == nibbles[n..]
    ensures all == nibbles
  {}

  // The nibbles on air: whitened payload and raw CRC, low nibble first.
  function Stream(payload: seq<Byte>, trailer: seq<Byte>): (nibbles: seq<Nibble>)
    ensures |nibbles| == 2 * (|payload| + |trailer|)
  {
    Unpack(Whiten(payload) + trailer)
  }

  // The two CRC bytes, low byte first.
  function CrcBytes(payload: seq<Byte>): (trailer: seq<Byte>)
    requires |payload| >= 2
    ensures |trailer| == 2
  {
    var w := Check(payload);
    [w[..8], w[8..]]
  }

  function FrameNibbles(h: Header, c: Config): (n: nat)
    requires ValidConfig(c)
    ensures n >= c.sf - 7
  {
    c.sf - 7 + BlockCount(h, c) * BitsPerSymbol(c.sf, c.ldro)
  }

  // The header block, filled up with the first payload nibbles.
  function HeaderBins(h: Header, c: Config, nibbles: seq<Nibble>, offset: nat -> nat): (bins: seq<int>)
    requires ValidConfig(c) && ValidHeader(h) && |nibbles| == FrameNibbles(h, c)
    ensures |bins| == 8
  {
    EncodeBlock(HeaderNibbles(h) + nibbles[..c.sf - 7], 8, c, true, offset)
  }

  function PayloadBins(h: Header, c: Config, nibbles: seq<Nibble>, offset: nat -> nat): (bins: seq<int>)
    requires ValidConfig(c) && ValidHeader(h) && |nibbles| == FrameNibbles(h, c)
    ensures |bins| == BlockCount(h, c) * h.cr
  {
    EncodeBlocks(nibbles[c.sf - 7..], BlockCount(h, c), h.cr, c, offset)
  }

  // A decoder's buffer holds this much of payload and CRC.
  function Fits(bytes: seq<Byte>): seq<Byte> {
    if |bytes| > MAX_PAYLOAD_BYTES then bytes[..MAX_PAYLOAD_BYTES] else bytes
  }

  function Clipped(bytes: seq<Byte>, n: nat): seq<Byte> {
    if |bytes| > n then bytes[..n] else bytes
  }

  // The first bytes of a stream that starts with the sent nibbles.
  lemma ClippedIsSent(sent: seq<Byte>, nibbles: seq<Nibble>)
    requires |nibbles| >= 2 * |sent| && nibbles[..2 * |sent|] == Unpack(sent)
    ensures Clipped(FirstBytes(nibbles), |sent|) == Fits(sent)
  {
    PackUnpack(sent, nibbles);
  }

  function Dewhitened(bytes: seq<Byte>, len: nat): seq<Byte> {
    var k := if len > |bytes| then |bytes| else len;
    Whiten(bytes[..k]) + bytes[k..]
  }

  lemma DewhitenFits(payload: seq<Byte>, trailer: seq<Byte>)
    requires |payload| <= 255
    ensures Dewhitened(Fits(Whiten(payload) + trailer), |payload|) == Fits(payload + trailer)
  {
    var sent, r := Fits(Whiten(payload) + trailer), Fits(payload + trailer);
    assert sent[..|payload|] == Whiten(payload) && sent[|payload|..] == r[|payload|..];
    WhitenTwice(payload);
    assert r == payload + r[|payload|..];
  }

  lemma ReceivedIsSent(h: Header, payload: seq<Byte>, trailer: seq<Byte>, nibbles: seq<Nibble>)
    requires ValidHeader(h) && |payload| == h.len && |payload + trailer| == PayloadBytes(h)
    requires |Stream(payload, trailer)| <= |nibbles|
    requires nibbles[..|Stream(payload, trailer)|] == Stream(payload, trailer)
    ensures ReceivedBytes(nibbles, h) == Fits(payload + trailer)
  {
    ClippedIsSent(Whiten(payload) + trailer, nibbles);
    DewhitenFits(payload, trailer);
  }

  lemma HeaderStage(h: Header, rest: seq<Nibble>)
    requires ValidHeader(h)
    ensures ParseHeader(HeaderNibbles(h) + rest) == Some(h) && (HeaderNibbles(h) + rest)[5..] == rest
  {
    var n := HeaderNibbles(h) + rest;
    assert n[..5] == HeaderNibbles(h);
    HeaderRoundTrip(h, n);
  }

  // The frame of these nibbles is at the start of the symbols.
  ghost predicate FrameArrives(h: Header, c: Config, nibbles: seq<Nibble>, offset: nat -> nat, symbols: seq<Symbol>)
    requires ValidConfig(c) && ValidHeader(h) && |nibbles| == FrameNibbles(h, c) && ValidSymbols(symbols, c)
  {
    && |symbols| >= 8 && Arrives(symbols[..8], HeaderBins(h, c, nibbles, offset), c, true)
    && BodyArrives(h, c, PayloadBins(h, c, nibbles, offset), symbols[8..])
  }

  ghost predicate BodyArrives(h: Header, c: Config, bins: seq<int>, rest: seq<Symbol>)
    requires ValidConfig(c) && ValidHeader(h) && ValidSymbols(rest, c)
  {
    |rest| >= |bins| && BlocksArrive(rest[..|bins|], bins, h.cr, c)
  }

  lemma HeaderParses(h: Header, rest: seq<Nibble>, c: Config)
    requires ValidConfig(c) && ValidHeader(h)
    ensures ParseNibbles(HeaderNibbles(h) + rest, c) == Some(Parsed(h, rest, SymbolTarget(h, c)))
  {
    HeaderStage(h, rest);
  }

  lemma BlockParses(sent: seq<Nibble>, c: Config, offset: nat -> nat, block: seq<Symbol>, p: Option<Parsed>)
    requires ValidConfig(c) && ValidSymbols(block, c) && (c.soft ==> c.preambleBin == 0)
    requires |sent| == BitsPerSymbol(c.sf, true) && Arrives(block, EncodeBlock(sent, 8, c, true, offset), c, true)
    requires ParseNibbles(sent, c) == p
    ensures |block| == 8 && ParseBlock(block, c) == p
  {
    BlockRoundTrip(sent, 8, c, true, offset, block);
  }

  lemma HeaderArrives(h: Header, c: Config, nibbles: seq<Nibble>, offset: nat -> nat, block: seq<Symbol>)
    requires ValidConfig(c) && ValidHeader(h) && |nibbles| == FrameNibbles(h, c) && ValidSymbols(block, c)
    requires (c.soft ==> c.preambleBin == 0) && Arrives(block, HeaderBins(h, c, nibbles, offset), c, true)
    ensures |block| == 8 && ParseBlock(block, c) == Some(Parsed(h, nibbles[..c.sf - 7], SymbolTarget(h, c)))
  {
    var rest := nibbles[..c.sf - 7];
    HeaderParses(h, rest, c);
    BlockParses(HeaderNibbles(h) + rest, c, offset, block, Some(Parsed(h, rest, SymbolTarget(h, c))));
  }

  lemma PayloadArrives(h: Header, c: Config, nibbles: seq<Nibble>, offset: nat -> nat, rest: seq<Symbol>)
    requires ValidConfig(c) && ValidHeader(h) && |nibbles| == FrameNibbles(h, c) && ValidSymbols(rest, c)
    requires (c.soft ==> c.preambleBin == 0) && BlocksArrive(rest, PayloadBins(h, c, nibbles, offset), h.cr, c)
    ensures nibbles[..c.sf - 7] + DecodeBlocks(rest, h.cr, c) == nibbles
  {
    BlocksRoundTrip(nibbles[c.sf - 7..], BlockCount(h, c), h.cr, c, offset, rest);
    assert nibbles[..c.sf - 7] + nibbles[c.sf - 7..] == nibbles;
  }

  // The nibbles on air start with payload and trailer; what fills up the last block is free.
  ghost predicate Carries(h: Header, c: Config, payload: seq<Byte>, trailer: seq<Byte>, nibbles: seq<Nibble>)
    requires ValidConfig(c)
  {
    && ValidHeader(h) && |payload| == h.len && |payload + trailer| == PayloadBytes(h)
    && |nibbles| == FrameNibbles(h, c)
    && |Stream(payload, trailer)| <= |nibbles| && nibbles[..|Stream(payload, trailer)|] == Stream(payload, trailer)
  }

  // Every frame that arrives is decoded to what was sent, clipped to the decoder's
  // buffer; only a frame that fits into the header block is delivered empty.
  lemma FrameRoundTrip(h: Header, c: Config, payload: seq<Byte>, trailer: seq<Byte>, nibbles: seq<Nibble>,
                       offset: nat -> nat, symbols: seq<Symbol>)
    requires ValidConfig(c) && ValidSymbols(symbols, c) && (c.soft ==> c.preambleBin == 0)
    requires Carries(h, c, payload, trailer, nibbles) && FrameArrives(h, c, nibbles, offset, symbols)
    ensures DecodeStream(symbols, c) ==
      if 2 * PayloadBytes(h) <= c.sf - 7 then Empty(!h.hasCrc)
      else Delivered(Fits(payload + trailer), CrcOk(Fits(payload + trailer), h.hasCrc))
  {
    FrameDecodes(h, c, nibbles, offset, symbols);
    TargetZero(h, c);
    ReceivedIsSent(h, payload, trailer, nibbles);
  }

  lemma FrameDecodes(h: Header, c: Config, nibbles: seq<Nibble>, offset: nat -> nat, symbols: seq<Symbol>)
    requires ValidConfig(c) && ValidSymbols(symbols, c) && (c.soft ==> c.preambleBin == 0)
    requires ValidHeader(h) && |nibbles| == FrameNibbles(h, c) && FrameArrives(h, c, nibbles, offset, symbols)
    ensures DecodeStream(symbols, c) ==
      if SymbolTarget(h, c) == 0 then Empty(!h.hasCrc) else DecodePayload(h, nibbles)
  {
    HeaderArrives(h, c, nibbles, offset, symbols[..8]);
    RestDecodes(h, c, nibbles, offset, symbols[8..]);
  }

  lemma RestDecodes(h: Header, c: Config, nibbles: seq<Nibble>, offset: nat -> nat, rest: seq<Symbol>)
    requires ValidConfig(c) && ValidSymbols(rest, c) && (c.soft ==> c.preambleBin == 0)
    requires ValidHeader(h) && |nibbles| == FrameNibbles(h, c)
    requires BodyArrives(h, c, PayloadBins(h, c, nibbles, offset), rest)
    ensures DecodeRest(Some(Parsed(h, nibbles[..c.sf - 7], SymbolTarget(h, c))), rest, c) ==
      if SymbolTarget(h, c) == 0 then Empty(!h.hasCrc) else DecodePayload(h, nibbles)
  {
    TargetIsLeast(h, c, 0);
    PayloadArrives(h, c, nibbles, offset, rest[..SymbolTarget(h, c)]);
  }

  // The decoder waits for exactly the frame's symbols.
  lemma FrameEnds(h: Header, c: Config, nibbles: seq<Nibble>, offset: nat -> nat, symbols: seq<Symbol>, k: nat)
    requires ValidConfig(c) && ValidSymbols(symbols, c) && (c.soft ==> c.preambleBin == 0)
    requires ValidHeader(h) && |nibbles| == FrameNibbles(h, c) && FrameArrives(h, c, nibbles, offset, symbols)
    requires k <= |symbols|
    ensures DecodeStream(symbols[..k], c) == Waiting <==> k < 8 + BlockCount(h, c) * h.cr
  {
    if k >= 8 {
      assert symbols[..k][..8] == symbols[..8];
      HeaderArrives(h, c, nibbles, offset, symbols[..8]);
      TargetIsLeast(h, c, 0);
    }
  }

  lemma TargetZero(h: Header, c: Config)
    requires ValidConfig(c) && ValidHeader(h)
    ensures SymbolTarget(h, c) == 0 <==> 2 * PayloadBytes(h) <= c.sf - 7
  {
    TargetIsLeast(h, c, 0);
    if BlockCount(h, c) > 0 {
      MulAtLeast(BlockCount(h, c), h.cr);
    }
  }

  // ---- Which CRC-bearing frames pass the check ----

  lemma SentPasses(payload: seq<Byte>)
    requires |payload| >= 2
    ensures Passes(payload + CrcBytes(payload))
  {
    var f, w := payload + CrcBytes(payload), Check(payload);
    assert Payload(f) == payload;
    assert f[|f| - 2] == w[..8] && f[|f| - 1] == w[8..];
    assert Trailer(f) == w;
  }

  function Zeros(n: nat): (r: seq<Byte>)
    ensures |r| == n
  {
    seq(n, i => ZERO_BYTE)
  }

  lemma {:induction false} ZerosRemainder(n: nat)
    ensures Remainder(Zeros(n)) == ZERO
  {
    if n > 0 {
      assert Zeros(n)[..n - 1] == Zeros(n - 1);
      ZerosRemainder(n - 1);
      ByteStepsZero();
      assert Xor(ZERO, Low(ZERO_BYTE)) == ZERO;
    }
  }

  // A payload of 255 bytes whose frame, CRC included, is one byte too long for the
  // buffer, so that the check is made against the wrong two bytes.
  function TooLong(): (payload: seq<Byte>)
    ensures |payload| == 255
  {
    Zeros(254) + [Mask(0)]
  }

  lemma TooLongFails()
    ensures !Passes(Fits(TooLong() + CrcBytes(TooLong())))
  {
    var p := TooLong();
    ZerosRemainder(254);
    ByteStepsZero();
    assert p[..254] == Zeros(254);
    CheckIsRemainder(p);
    assert Check(p) == Xor(ZERO, Low(Mask(0)));
    var f := Fits(p + CrcBytes(p));
    assert f == p + [CrcBytes(p)[0]];
    assert Payload(f) == Zeros(254);
    CheckIsRemainder(Zeros(254));
    assert f[254] == Mask(0);
    assert Trailer(f)[0];
  }

  // Payload and CRC; a one-byte payload has no CRC of its own, any two bytes follow it.
  function Sealed(payload: seq<Byte>, other: seq<Byte>): seq<Byte> {
    payload + if |payload| >= 2 then CrcBytes(payload) else other
  }

  // A CRC-bearing frame passes the decoder's check for every payload of its length
  // exactly when the length is 2 to 254.
  lemma CrcFramePassesIff(len: nat, other: seq<Byte>)
    requires 1 <= len <= 255 && |other| == 2
    ensures (forall p: seq<Byte> :: |p| == len ==> CrcOk(Fits(Sealed(p, other)), true)) <==> 2 <= len <= 254
  {
    if 2 <= len <= 254 {
      forall p: seq<Byte> | |p| == len
        ensures CrcOk(Fits(Sealed(p, other)), true)
      {
        SentPasses(p);
      }
    } else if len == 1 {
      assert !CrcOk(Fits(Sealed(Zeros(1), other)), true);
    } else {
      TooLongFails();
      assert !CrcOk(Fits(Sealed(TooLong(), other)), true);
    }
  }

  // Payload and its own CRC arrive: for 2 to 254 bytes that is what is delivered, with
  // the check passed.
  lemma SealedFrameDelivered(cr: nat, c: Config, payload: seq<Byte>, nibbles: seq<Nibble>,
                             offset: nat -> nat, symbols: seq<Symbol>)
    requires ValidConfig(c) && ValidSymbols(symbols, c) && (c.soft ==> c.preambleBin == 0)
    requires 2 <= |payload| <= 254 && 5 <= cr <= 8
    requires var h := Header(|payload|, cr, true);
      Carries(h, c, payload, CrcBytes(payload), nibbles) && FrameArrives(h, c, nibbles, offset, symbols)
    ensures DecodeStream(symbols, c) == Delivered(payload + CrcBytes(payload), true)
  {
    FrameRoundTrip(Header(|payload|, cr, true), c, payload, CrcBytes(payload), nibbles, offset, symbols);
    SentPasses(payload);
  }

  // A frame without a CRC is delivered as sent and counts as passed, except that the one or
  // two bytes that fit into the header block are not delivered at all.
  lemma PlainFrameDelivered(cr: nat, c: Config, payload: seq<Byte>, nibbles: seq<Nibble>,
                            offset: nat -> nat, symbols: seq<Symbol>)
    requires ValidConfig(c) && ValidSymbols(symbols, c) && (c.soft ==> c.preambleBin == 0)
    requires 1 <= |payload| <= 255 && 5 <= cr <= 8
    requires var h := Header(|payload|, cr, false);
      Carries(h, c, payload, [], nibbles) && FrameArrives(h, c, nibbles, offset, symbols)
    ensures DecodeStream(symbols, c) == if 2 * |payload| <= c.sf - 7 then Empty(true) else Delivered(payload, true)
  {
    assert payload + [] == payload;
    FrameRoundTrip(Header(|payload|, cr, false), c, payload, [], nibbles, offset, symbols);
  }

  // A one-byte payload with a CRC is delivered with its two CRC bytes and fails the check,
  // whatever they are.
  lemma OneByteFrameFails(cr: nat, c: Config, payload: seq<Byte>, trailer: seq<Byte>, nibbles: seq<Nibble>,
                          offset: nat -> nat, symbols: seq<Symbol>)
    requires ValidConfig(c) && ValidSymbols(symbols, c) && (c.soft ==> c.preambleBin == 0)
    requires |payload| == 1 && |trailer| == 2 && 5 <= cr <= 8
    requires var h := Header(1, cr, true);
      Carries(h, c, payload, trailer, nibbles) && FrameArrives(h, c, nibbles, offset, symbols)
    ensures DecodeStream(symbols, c) == Delivered(payload + trailer, false)
  {
    FrameRoundTrip(Header(1, cr, true), c, payload, trailer, nibbles, offset, symbols);
  }
}
