/**
 What becomes of a whole frame that is received with one payload bit wrong, or two: from
 the symbols to the repaired payload.
 */
module FrameRecovery {
  import opened Bits
  import opened CrcPolynomial
  import opened FrameDecoder
  import opened LoraBlocks
  import opened LoraCrc
  import opened LoraFrame
  import opened LoraSymbols
  import opened LoraWhitening

  // ---- A wrong bit on air is a wrong bit of the payload ----

  function Inverted(n: Nibble, m: nat): Nibble
    requires m < 4
  {
    n[m := !n[m]]
  }

  // The nibbles with bit k inverted: bit k % 4 of nibble k / 4.
  function BitOff(nibbles: seq<Nibble>, k: nat): (r: seq<Nibble>)
    requires k < 4 * |nibbles|
    ensures |r| == |nibbles|
  {
    nibbles[k / 4 := Inverted(nibbles[k / 4], k % 4)]
  }

  lemma WhitenFlip(p: seq<Byte>, k: nat)
    requires k < 8 * |p|
    ensures Whiten(Flip(p, k)) == Flip(Whiten(p), k)
  {
    MaskFlip(p, k, Whitener());
  }

  lemma MaskFlip(p: seq<Byte>, k: nat, mask: seq<nat>)
    requires k < 8 * |p|
    ensures ApplyMask(Flip(p, k), mask) == Flip(ApplyMask(p, mask), k)
  {
    var m := k / 8;
    if m < |mask| {
      var w := ToBits(mask[m], 8);
      XorAssociative(p[m], Mask(k % 8), w);
      XorAssociative(p[m], w, Mask(k % 8));
      XorLaws(w, Mask(k % 8));
    }
  }

  lemma FlipConcat(p: seq<Byte>, t: seq<Byte>, k: nat)
    requires k < 8 * |p|
    ensures Flip(p, k) + t == Flip(p + t, k)
  {}

  lemma InvertedHalf(b: Byte, m: nat)
    requires m < 8
    ensures Xor(b, Mask(m))[..4] == if m < 4 then Inverted(b[..4], m) else b[..4]
    ensures Xor(b, Mask(m))[4..] == if m < 4 then b[4..] else Inverted(b[4..], m - 4)
  {}

  lemma UnpackFlip(bytes: seq<Byte>, k: nat)
    requires k < 8 * |bytes|
    ensures Unpack(Flip(bytes, k)) == BitOff(Unpack(bytes), k)
  {
    InvertedHalf(bytes[k / 8], k % 8);
    forall i | 0 <= i < 2 * |bytes|
      ensures Unpack(Flip(bytes, k))[i] == BitOff(Unpack(bytes), k)[i]
    {
      HalfOf(k, i);
    }
  }

  lemma HalfOf(k: nat, i: nat)
    ensures i == k / 4 <==> i / 2 == k / 8 && (i % 2 == 0 <==> k % 8 < 4)
    ensures k % 4 == if k % 8 < 4 then k % 8 else k % 8 - 4
  {}

  lemma StreamFlip(payload: seq<Byte>, trailer: seq<Byte>, k: nat)
    requires k < 8 * |payload|
    ensures Stream(Flip(payload, k), trailer) == BitOff(Stream(payload, trailer), k)
  {
    WhitenFlip(payload, k);
    FlipConcat(Whiten(payload), trailer, k);
    UnpackFlip(Whiten(payload) + trailer, k);
  }

  // Nibbles that carry a frame carry, with one bit wrong, the frame with that bit wrong.
  lemma CarriesBitOff(h: Header, c: Config, payload: seq<Byte>, trailer: seq<Byte>, nibbles: seq<Nibble>, k: nat)
    requires ValidConfig(c) && Carries(h, c, payload, trailer, nibbles) && k < 8 * |payload|
    ensures k < 4 * |nibbles| && Carries(h, c, Flip(payload, k), trailer, BitOff(nibbles, k))
  {
    StreamFlip(payload, trailer, k);
    var n := |Stream(payload, trailer)|;
    assert BitOff(nibbles, k)[..n] == BitOff(nibbles[..n], k);
  }

  // ---- Frames ----

  function Sent(payload: seq<Byte>): (frame: seq<Byte>)
    requires |payload| >= 2
    ensures |frame| == |payload| + 2
  {
    payload + CrcBytes(payload)
  }

  // The frame that arrives, when what it carries is payload with a good frame's CRC.
  lemma BadFrame(cr: nat, c: Config, bad: seq<Byte>, trailer: seq<Byte>, nibbles: seq<Nibble>,
                 offset: nat -> nat, symbols: seq<Symbol>)
    requires ValidConfig(c) && ValidSymbols(symbols, c) && (c.soft ==> c.preambleBin == 0)
    requires 2 <= |bad| <= 254 && |trailer| == 2 && 5 <= cr <= 8 && !Passes(bad + trailer)
    requires var h := Header(|bad|, cr, true);
      Carries(h, c, bad, trailer, nibbles) && FrameArrives(h, c, nibbles, offset, symbols)
    ensures DecodeStream(symbols, c) == Delivered(bad + trailer, false)
  {
    FrameRoundTrip(Header(|bad|, cr, true), c, bad, trailer, nibbles, offset, symbols);
  }

  lemma OddIsNotZero(w: Word)
    requires Odd(w)
    ensures w != ZERO
  {
    if w == ZERO {
      OddWord(ZERO);
      OddNibble(ZERO[..4]);
      OddNibble(ZERO[4..8]);
      OddNibble(ZERO[8..12]);
      OddNibble(ZERO[12..]);
    }
  }

  lemma OneWrongBitFails(frame: seq<Byte>, k: nat)
    requires |frame| >= 4 && Passes(frame) && k < PayloadBits(frame)
    ensures !Passes(Flip(frame, k)) && FirstRepair(Flip(frame, k)) < PayloadBits(frame)
  {
    var e := Effect(|frame| - 2, k);
    PassesIff(frame);
    FlipMismatch(frame, k);
    PassesIff(Flip(frame, k));
    assert Xor(ZERO, e) == e;
    PowParity(Exponent(|frame| - 2, k));
    OddIsNotZero(e);
    RepairsAfterFlip(frame, k, k);
  }

  lemma OneBitRecovered(frame: seq<Byte>, k: nat, bruteForce2: bool, allocOk: bool)
    requires 4 <= |frame| <= 4097 && Passes(frame) && k < PayloadBits(frame)
    ensures Recover(Flip(frame, k), true, bruteForce2, allocOk) == Recovery(frame, true, 1)
    ensures Recover(Flip(frame, k), false, bruteForce2, allocOk) == Recovery(Flip(frame, k), false, 0)
    ensures !Passes(Flip(frame, k))
  {
    OneWrongBitFails(frame, k);
    OneBitRestores(frame, k);
  }

  lemma OneWrongReceived(cr: nat, c: Config, payload: seq<Byte>, nibbles: seq<Nibble>, k: nat,
                         offset: nat -> nat, symbols: seq<Symbol>)
    requires ValidConfig(c) && ValidSymbols(symbols, c) && (c.soft ==> c.preambleBin == 0)
    requires 2 <= |payload| <= 254 && 5 <= cr <= 8 && k < 8 * |payload| && !Passes(Flip(Sent(payload), k))
    requires var h := Header(|payload|, cr, true);
      && Carries(h, c, payload, CrcBytes(payload), nibbles) && k < 4 * |nibbles|
      && FrameArrives(h, c, BitOff(nibbles, k), offset, symbols)
    ensures DecodeStream(symbols, c) == Delivered(Flip(Sent(payload), k), false)
  {
    var crc := CrcBytes(payload);
    CarriesBitOff(Header(|payload|, cr, true), c, payload, crc, nibbles, k);
    FlipConcat(payload, crc, k);
    BadFrame(cr, c, Flip(payload, k), crc, BitOff(nibbles, k), offset, symbols);
  }

  // A sealed frame of 2 to 254 bytes received with one payload bit wrong is delivered as
  // sent, with one corrected bit, when the search is on; and as received, with the check
  // failed, when it is off.
  lemma OneWrongBit(cr: nat, c: Config, payload: seq<Byte>, nibbles: seq<Nibble>, k: nat,
                    offset: nat -> nat, symbols: seq<Symbol>, bruteForce2: bool, allocOk: bool)
    requires ValidConfig(c) && ValidSymbols(symbols, c) && (c.soft ==> c.preambleBin == 0)
    requires 2 <= |payload| <= 254 && 5 <= cr <= 8 && k < 8 * |payload|
    requires var h := Header(|payload|, cr, true);
      && Carries(h, c, payload, CrcBytes(payload), nibbles) && k < 4 * |nibbles|
      && FrameArrives(h, c, BitOff(nibbles, k), offset, symbols)
    ensures Repaired(DecodeStream(symbols, c), true, bruteForce2, allocOk) == (Delivered(Sent(payload), true), 1)
    ensures Repaired(DecodeStream(symbols, c), false, bruteForce2, allocOk)
         == (Delivered(Flip(Sent(payload), k), false), 0)
  {
    SentPasses(payload);
    OneBitRecovered(Sent(payload), k, bruteForce2, allocOk);
    OneWrongReceived(cr, c, payload, nibbles, k, offset, symbols);
  }

  lemma TwoWrongBitsFail(frame: seq<Byte>, a: nat, b: nat)
    requires 4 <= |frame| <= 4097 && Passes(frame) && a < b < PayloadBits(frame)
    ensures var bad := Flip(Flip(frame, a), b);
      && !Passes(bad) && FirstRepair(bad) == PayloadBits(frame) && FirstPaired(bad) < PayloadBits(frame)
  {
    var n, bad := |frame| - 2, Flip(Flip(frame, a), b);
    TwoFlipsMismatch(frame, a, b);
    PassesIff(bad);
    DistinctPowers(n, a, b);
    XorZero(Effect(n, a), Effect(n, b));
    RepairsAfterTwo(frame, a, b, a, b);
    TiersApply(bad);
    if FirstRepair(bad) < PayloadBits(frame) {
      TiersExclusive(bad, FirstRepair(bad), a, b);
    }
  }

  lemma PairFoundPasses(frame: seq<Byte>)
    requires |frame| >= 4 && !Passes(frame) && FirstPaired(frame) < PayloadBits(frame)
    ensures Passes(TwoBitResult(frame))
  {
    assert RepairsPair(frame, FirstPaired(frame), Partner(frame, FirstPaired(frame)));
  }

  lemma TwoBitsRecovered(frame: seq<Byte>, a: nat, b: nat, bruteForce: bool, bruteForce2: bool, allocOk: bool)
    requires 4 <= |frame| <= 4097 && Passes(frame) && a < b < PayloadBits(frame)
    ensures var bad := Flip(Flip(frame, a), b);
      && !Passes(bad)
      && Recover(bad, bruteForce, bruteForce2, allocOk)
         == if bruteForce && bruteForce2 && allocOk then Recovery(TwoBitResult(bad), true, 2)
            else Recovery(bad, false, 0)
    ensures Passes(TwoBitResult(Flip(Flip(frame, a), b)))
  {
    TwoWrongBitsFail(frame, a, b);
    PairFoundPasses(Flip(Flip(frame, a), b));
  }

  lemma TwoBitsReported(frame: seq<Byte>, a: nat, b: nat, bruteForce: bool, bruteForce2: bool, allocOk: bool)
    requires 4 <= |frame| <= 4097 && Passes(frame) && a < b < PayloadBits(frame)
    ensures !Passes(Flip(Flip(frame, a), b))
    ensures var bad := Flip(Flip(frame, a), b);
      var got := Repaired(Delivered(bad, false), bruteForce, bruteForce2, allocOk);
      if bruteForce && bruteForce2 && allocOk then
        && got.1 == 2 && got.0.Delivered? && got.0.crcOk && |got.0.bytes| == |frame| && Passes(got.0.bytes)
        && (got.0.bytes == frame <==> Restorable(|frame| - 2, a, b))
      else got == (Delivered(bad, false), 0)
  {
    TwoBitsRecovered(frame, a, b, bruteForce, bruteForce2, allocOk);
    TwoBitRestoresIff(frame, a, b);
  }

  lemma TwoWrongReceived(cr: nat, c: Config, payload: seq<Byte>, nibbles: seq<Nibble>, a: nat, b: nat,
                         offset: nat -> nat, symbols: seq<Symbol>)
    requires ValidConfig(c) && ValidSymbols(symbols, c) && (c.soft ==> c.preambleBin == 0)
    requires 2 <= |payload| <= 254 && 5 <= cr <= 8 && a < b < 8 * |payload|
    requires !Passes(Flip(Flip(Sent(payload), a), b))
    requires var h := Header(|payload|, cr, true);
      && Carries(h, c, payload, CrcBytes(payload), nibbles) && b < 4 * |nibbles|
      && FrameArrives(h, c, BitOff(BitOff(nibbles, a), b), offset, symbols)
    ensures DecodeStream(symbols, c) == Delivered(Flip(Flip(Sent(payload), a), b), false)
  {
    var h, crc := Header(|payload|, cr, true), CrcBytes(payload);
    CarriesBitOff(h, c, payload, crc, nibbles, a);
    CarriesBitOff(h, c, Flip(payload, a), crc, BitOff(nibbles, a), b);
    FlipConcat(payload, crc, a);
    FlipConcat(Flip(payload, a), crc, b);
    BadFrame(cr, c, Flip(Flip(payload, a), b), crc, BitOff(BitOff(nibbles, a), b), offset, symbols);
  }

  // With two payload bits wrong and both searches on, two bits are always corrected and
  // the check always passes; but what is delivered is what was sent exactly when the two
  // positions are restorable in a payload of that length.  With either search off, or no
  // memory, the frame is delivered as received.
  lemma TwoWrongBits(cr: nat, c: Config, payload: seq<Byte>, nibbles: seq<Nibble>, a: nat, b: nat,
                     offset: nat -> nat, symbols: seq<Symbol>, bruteForce: bool, bruteForce2: bool, allocOk: bool)
    requires ValidConfig(c) && ValidSymbols(symbols, c) && (c.soft ==> c.preambleBin == 0)
    requires 2 <= |payload| <= 254 && 5 <= cr <= 8 && a < b < 8 * |payload|
    requires var h := Header(|payload|, cr, true);
      && Carries(h, c, payload, CrcBytes(payload), nibbles) && b < 4 * |nibbles|
      && FrameArrives(h, c, BitOff(BitOff(nibbles, a), b), offset, symbols)
    ensures var got := Repaired(DecodeStream(symbols, c), bruteForce, bruteForce2, allocOk);
      if bruteForce && bruteForce2 && allocOk then
        && got.1 == 2 && got.0.Delivered? && got.0.crcOk && |got.0.bytes| == |payload| + 2 && Passes(got.0.bytes)
        && (got.0.bytes == Sent(payload) <==> Restorable(|payload|, a, b))
      else got == (Delivered(Flip(Flip(Sent(payload), a), b), false), 0)
  {
    SentPasses(payload);
    TwoBitsReported(Sent(payload), a, b, bruteForce, bruteForce2, allocOk);
    TwoWrongReceived(cr, c, payload, nibbles, a, b, offset, symbols);
  }

  // ---- The decoder over the symbols of a frame ----

  lemma NextSymbol<T>(s: seq<T>, i: nat)
    requires i < |s|
    ensures s[..i] + [s[i]] == s[..i + 1] && s[..|s|] == s
  {}

  // The next symbol.
  method TickNext(decoder: FrameDecoder, y: Symbol, allocOk: bool, ghost seen: seq<Symbol>)
    returns (outcome: Outcome, correctedBits: nat)
    requires decoder.Valid() && decoder.stage != Idle && ValidSymbol(y, decoder.c)
    requires seen == decoder.Symbols() + [y]
    modifies decoder
    ensures decoder.Valid() && decoder.Symbols() == seen && ValidConfig(decoder.c) && ValidSymbols(seen, decoder.c)
    ensures (outcome, correctedBits)
         == Repaired(DecodeStream(seen, decoder.c), decoder.bruteForce, decoder.bruteForce2, allocOk)
    ensures decoder.stage != Idle <==> outcome == Waiting
  {
    outcome, correctedBits := decoder.Tick(y, allocOk);
  }

  ghost predicate WaitsBefore(symbols: seq<Symbol>, c: Config, k: nat) {
    && ValidConfig(c) && ValidSymbols(symbols, c)
    && forall i :: 0 <= i < k <= |symbols| ==> DecodeStream(symbols[..i], c) == Waiting
  }

  lemma FrameWaits(h: Header, c: Config, nibbles: seq<Nibble>, offset: nat -> nat, symbols: seq<Symbol>)
    requires ValidConfig(c) && ValidSymbols(symbols, c) && (c.soft ==> c.preambleBin == 0)
    requires ValidHeader(h) && |nibbles| == FrameNibbles(h, c) && FrameArrives(h, c, nibbles, offset, symbols)
    requires |symbols| == 8 + BlockCount(h, c) * h.cr
    ensures WaitsBefore(symbols, c, |symbols|) && DecodeStream(symbols, c) != Waiting
  {
    forall i | 0 <= i < |symbols|
      ensures DecodeStream(symbols[..i], c) == Waiting
    {
      FrameEnds(h, c, nibbles, offset, symbols, i);
    }
    FrameEnds(h, c, nibbles, offset, symbols, |symbols|);
    assert symbols[..|symbols|] == symbols;
  }

  // All symbols but the last.
  method FeedAllButLast(decoder: FrameDecoder, symbols: seq<Symbol>, allocOk: bool)
    requires decoder.Valid() && decoder.stage != Idle && decoder.Symbols() == []
    requires symbols != [] && WaitsBefore(symbols, decoder.c, |symbols|)
    modifies decoder
    ensures decoder.Valid() && decoder.stage != Idle && decoder.Symbols() == symbols[..|symbols| - 1]
  {
    for i := 0 to |symbols| - 1
      invariant decoder.Valid() && decoder.stage != Idle && decoder.Symbols() == symbols[..i]
    {
      NextSymbol(symbols, i);
      var _, _ := TickNext(decoder, symbols[i], allocOk, symbols[..i + 1]);
    }
  }

  method Receive(c: Config, symbols: seq<Symbol>, bruteForce: bool, bruteForce2: bool, allocOk: bool)
    returns (outcome: Outcome, correctedBits: nat)
    requires symbols != [] && WaitsBefore(symbols, c, |symbols|)
    ensures (outcome, correctedBits) == Repaired(DecodeStream(symbols, c), bruteForce, bruteForce2, allocOk)
  {
    var decoder := new FrameDecoder(c, bruteForce, bruteForce2);
    FeedAllButLast(decoder, symbols, allocOk);
    NextSymbol(symbols, |symbols| - 1);
    outcome, correctedBits := TickNext(decoder, symbols[|symbols| - 1], allocOk, symbols);
  }

  // Fed with the symbols of a frame that arrives, the decoder waits up to the last one and
  // then reports what the symbols say.
  method ReceiveFrame(c: Config, symbols: seq<Symbol>, bruteForce: bool, bruteForce2: bool, allocOk: bool,
                      ghost h: Header, ghost nibbles: seq<Nibble>, ghost offset: nat -> nat)
    returns (outcome: Outcome, correctedBits: nat)
    requires ValidConfig(c) && ValidSymbols(symbols, c) && (c.soft ==> c.preambleBin == 0)
    requires ValidHeader(h) && |nibbles| == FrameNibbles(h, c) && FrameArrives(h, c, nibbles, offset, symbols)
    requires |symbols| == 8 + BlockCount(h, c) * h.cr
    ensures (outcome, correctedBits) == Repaired(DecodeStream(symbols, c), bruteForce, bruteForce2, allocOk)
    ensures DecodeStream(symbols, c) != Waiting
  {
    FrameWaits(h, c, nibbles, offset, symbols);
    outcome, correctedBits := Receive(c, symbols, bruteForce, bruteForce2, allocOk);
  }
}
