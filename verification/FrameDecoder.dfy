/**
 The decoder's loops and its state machine over symbols (the header and payload states
 of `state_tick`).
 */
module FrameDecoder {
  import opened Bits
  import opened LoraBlocks
  import opened LoraCrc
  import opened LoraFrame
  import opened LoraWhitening
  import opened Wrappers

  // ---- The loops ----

  // Collects nibbles into bytes, up to the buffer's capacity: the half-byte that waits
  // for its high nibble is carried from one block to the next.
  ghost predicate Collected(bytes: seq<Byte>, pending: Option<Nibble>, nibbles: seq<Nibble>) {
    && bytes == FirstBytes(nibbles)
    && (|bytes| < MAX_PAYLOAD_BYTES ==>
      pending == if |nibbles| % 2 == 1 then Some(nibbles[|nibbles| - 1]) else None)
  }

  method Collect(bytes: seq<Byte>, pending: Option<Nibble>, nibble: Nibble, ghost nibbles: seq<Nibble>)
    returns (bytes': seq<Byte>, pending': Option<Nibble>)
    requires Collected(bytes, pending, nibbles) && |bytes| < MAX_PAYLOAD_BYTES
    ensures Collected(bytes', pending', nibbles + [nibble])
  {
    bytes', pending' := bytes, pending;
    match pending {
      case None => pending' := Some(nibble);
      case Some(lo) =>
        bytes' := bytes + [Join(lo, nibble)];
        pending' := None;
    }
    PackSnoc(nibbles, nibble);
  }

  lemma PackSnoc(nibbles: seq<Nibble>, x: Nibble)
    ensures Pack(nibbles + [x]) ==
      Pack(nibbles) + (if |nibbles| % 2 == 1 then [Join(nibbles[|nibbles| - 1], x)] else [])
  {}

  lemma CollectedFull(bytes: seq<Byte>, pending: Option<Nibble>, nibbles: seq<Nibble>, more: seq<Nibble>)
    requires Collected(bytes, pending, nibbles) && |bytes| == MAX_PAYLOAD_BYTES
    ensures Collected(bytes, pending, nibbles + more)
  {}

  // Append a block's nibbles, stopping when the buffer is full.
  method CollectAll(bytes: seq<Byte>, pending: Option<Nibble>, more: seq<Nibble>, ghost nibbles: seq<Nibble>)
    returns (bytes': seq<Byte>, pending': Option<Nibble>)
    requires Collected(bytes, pending, nibbles)
    ensures Collected(bytes', pending', nibbles + more)
  {
    bytes', pending' := bytes, pending;
    var r := 0;
    ghost var seen := nibbles;
    while r < |more| && |bytes'| < MAX_PAYLOAD_BYTES
      invariant 0 <= r <= |more| && seen == nibbles + more[..r] && Collected(bytes', pending', seen)
    {
      bytes', pending' := Collect(bytes', pending', more[r], seen);
      seen, r := seen + [more[r]], r + 1;
    }
    assert nibbles + more == seen + more[r..];
    if r < |more| {
      CollectedFull(bytes', pending', seen, more[r..]);
    }
  }

  lemma KeptSlice(symbols: seq<Symbol>, c: Config, reduced: bool, lo: nat, hi: nat)
    requires ValidConfig(c) && ValidSymbols(symbols, c) && lo <= hi <= |symbols|
    ensures KeptAll(symbols, c, reduced)[lo..hi] == KeptAll(symbols[lo..hi], c, reduced)
  {}

  lemma NextBlock(nibbles: seq<Nibble>, symbols: seq<Symbol>, blk: nat, cr: nat, c: Config)
    requires ValidConfig(c) && ValidSymbols(symbols, c) && 5 <= cr <= 8 && blk + cr <= |symbols|
    ensures nibbles + DecodeBlocks(symbols[blk..], cr, c) ==
      nibbles + DecodeBlock(symbols[blk..blk + cr], c, c.ldro) + DecodeBlocks(symbols[blk + cr..], cr, c)
  {
    assert symbols[blk..][..cr] == symbols[blk..blk + cr] && symbols[blk..][cr..] == symbols[blk + cr..];
  }

  // The payload loop of `state_tick`: leftover nibbles first, then block by block.
  method CollectPayload(leftover: seq<Nibble>, kept: seq<Kept>, cr: nat, c: Config, ghost symbols: seq<Symbol>)
    returns (bytes: seq<Byte>)
    requires ValidConfig(c) && ValidSymbols(symbols, c) && 5 <= cr <= 8 && kept == KeptAll(symbols, c, c.ldro)
    ensures bytes == FirstBytes(leftover + DecodeBlocks(symbols, cr, c))
  {
    var pending: Option<Nibble> := None;
    bytes := [];
    bytes, pending := CollectAll(bytes, pending, leftover, []);
    ghost var all, nibbles := leftover + DecodeBlocks(symbols, cr, c), leftover;
    assert [] + leftover == leftover;
    var blk := 0;
    while blk + cr <= |kept|
      invariant 0 <= blk <= |kept|
      invariant Collected(bytes, pending, nibbles)
      invariant nibbles + DecodeBlocks(symbols[blk..], cr, c) == all
    {
      KeptSlice(symbols, c, c.ldro, blk, blk + cr);
      var block := ComputeBlock(kept[blk..blk + cr], c, c.ldro, symbols[blk..blk + cr]);
      bytes, pending := CollectAll(bytes, pending, block, nibbles);
      NextBlock(nibbles, symbols, blk, cr, c);
      nibbles := nibbles + block;
      blk := blk + cr;
    }
    assert nibbles + [] == nibbles;
  }

  method Loaded(s: seq<Byte>) returns (bytes: array<Byte>)
    ensures fresh(bytes) && bytes[..] == s
  {
    bytes := new Byte[|s|](i requires 0 <= i < |s| => s[i]);
  }

  // Clip and dewhiten.
  method LoadPayload(all: seq<Byte>, h: Header) returns (bytes: array<Byte>)
    ensures fresh(bytes) && bytes[..] == Dewhitened(Clipped(all, PayloadBytes(h)), h.len)
  {
    var total := PayloadBytes(h);
    var clipped := if |all| > total then all[..total] else all;
    bytes := Loaded(clipped);
    var payOnly := if h.len > |clipped| then |clipped| else h.len;
    Dewhiten(bytes, payOnly);
  }

  // A frame whose check failed, with bytes of the same length that pass.
  predicate Corrected(was: Outcome, now: Outcome) {
    && was.Delivered? && now.Delivered? && !was.crcOk && now.crcOk
    && |now.bytes| == |was.bytes| >= 4 && !Passes(was.bytes) && Passes(now.bytes)
  }

  // What is reported of a frame, with the number of corrected bits: a failed one as the
  // searches leave it.
  function Repaired(model: Outcome, bruteForce: bool, bruteForce2: bool, allocOk: bool): (Outcome, nat) {
    if model.Delivered? && !model.crcOk && |model.bytes| >= 4 then
      var r := Recover(model.bytes, bruteForce, bruteForce2, allocOk);
      (Delivered(r.bytes, r.crcOk), r.correctedBits)
    else (model, 0)
  }

  // Check and, if asked for, recover.
  method FinishPayload(all: seq<Byte>, h: Header, bruteForce: bool, bruteForce2: bool, allocOk: bool,
                       ghost nibbles: seq<Nibble>)
    returns (bytes: array<Byte>, crcOk: bool, correctedBits: nat)
    requires all == FirstBytes(nibbles)
    ensures correctedBits == 0 ==> bytes[..] == ReceivedBytes(nibbles, h) && crcOk == CrcOk(bytes[..], h.hasCrc)
    ensures correctedBits > 0 ==> crcOk && bruteForce && bytes.Length == |ReceivedBytes(nibbles, h)| >= 4
    ensures correctedBits > 0 ==> !Passes(ReceivedBytes(nibbles, h)) && Passes(bytes[..])
    ensures CrcOk(ReceivedBytes(nibbles, h), h.hasCrc) ==> correctedBits == 0
    ensures (Delivered(bytes[..], crcOk), correctedBits)
            == Repaired(DecodePayload(h, nibbles), bruteForce, bruteForce2, allocOk)
  {
    bytes := LoadPayload(all, h);
    assert bytes[..] == ReceivedBytes(nibbles, h);
    correctedBits := 0;
    if h.hasCrc && bytes.Length >= 4 {
      crcOk, correctedBits := VerifyAndRecover(bytes, bruteForce, bruteForce2, allocOk);
    } else {
      crcOk := !h.hasCrc;
    }
  }

  // The outcome is the model's, or the model's failed frame as the searches leave it; in
  // the latter case it passes now.
  predicate Reports(outcome: Outcome, correctedBits: nat, model: Outcome,
                    bruteForce: bool, bruteForce2: bool, allocOk: bool)
  {
    && (outcome, correctedBits) == Repaired(model, bruteForce, bruteForce2, allocOk)
    && if correctedBits == 0 then outcome == model else Corrected(model, outcome)
  }

  // Everything after the last payload symbol.
  method Deliver(h: Header, leftover: seq<Nibble>, payload: seq<Kept>, c: Config, bruteForce: bool, bruteForce2: bool,
                 allocOk: bool, ghost symbols: seq<Symbol>)
    returns (outcome: Outcome, correctedBits: nat)
    requires ValidConfig(c) && ValidSymbols(symbols, c) && ValidHeader(h) && payload == KeptAll(symbols, c, c.ldro)
    ensures Reports(outcome, correctedBits, DecodePayload(h, leftover + DecodeBlocks(symbols, h.cr, c)),
                    bruteForce, bruteForce2, allocOk)
    ensures outcome.Delivered?
  {
    var all := CollectPayload(leftover, payload, h.cr, c, symbols);
    ghost var nibbles := leftover + DecodeBlocks(symbols, h.cr, c);
    var bytes, crcOk;
    bytes, crcOk, correctedBits := FinishPayload(all, h, bruteForce, bruteForce2, allocOk, nibbles);
    outcome := Delivered(bytes[..], crcOk);
  }

  // ---- The state machine, one symbol at a time ----

  datatype Stage = InHeader | InPayload | Idle

  // The header block has been read.
  ghost predicate HeaderRead(block: seq<Symbol>, c: Config, p: Parsed) {
    ValidConfig(c) && ValidSymbols(block, c) && |block| == 8 && ParseBlock(block, c) == Some(p)
  }

  lemma StreamIs(block: seq<Symbol>, rest: seq<Symbol>, c: Config)
    requires ValidConfig(c) && ValidSymbols(block, c) && ValidSymbols(rest, c) && |block| == 8
    ensures ValidSymbols(block + rest, c)
    ensures DecodeStream(block + rest, c) == DecodeRest(ParseBlock(block, c), rest, c)
  {
    assert (block + rest)[..8] == block && (block + rest)[8..] == rest;
  }

  lemma StreamReports(block: seq<Symbol>, rest: seq<Symbol>, c: Config, p: Parsed, outcome: Outcome, bits: nat,
                      bruteForce: bool, bruteForce2: bool, allocOk: bool)
    requires HeaderRead(block, c, p) && ValidSymbols(rest, c)
    requires Reports(outcome, bits, DecodeRest(Some(p), rest, c), bruteForce, bruteForce2, allocOk)
    ensures ValidSymbols(block + rest, c)
    ensures Reports(outcome, bits, DecodeStream(block + rest, c), bruteForce, bruteForce2, allocOk)
  {
    StreamIs(block, rest, c);
  }

  lemma KeptNext(symbols: seq<Symbol>, y: Symbol, c: Config, reduced: bool)
    requires ValidConfig(c) && ValidSymbols(symbols, c) && ValidSymbol(y, c)
    ensures ValidSymbols(symbols + [y], c)
    ensures KeptAll(symbols + [y], c, reduced) == KeptAll(symbols, c, reduced) + [KeptOf(y, c, reduced)]
  {}

  // What the decoder has kept of the symbols of a stage.
  ghost predicate Keeps(kept: seq<Kept>, symbols: seq<Symbol>, c: Config, reduced: bool) {
    ValidConfig(c) && ValidSymbols(symbols, c) && kept == KeptAll(symbols, c, reduced)
  }

  method KeepNext(kept: seq<Kept>, y: Symbol, c: Config, reduced: bool, ghost symbols: seq<Symbol>)
    returns (more: seq<Kept>)
    requires Keeps(kept, symbols, c, reduced) && ValidSymbol(y, c)
    ensures Keeps(more, symbols + [y], c, reduced) && |more| == |kept| + 1
  {
    KeptNext(symbols, y, c, reduced);
    var one := Keep(y, c, reduced);
    more := kept + [one];
  }

  // The eighth header symbol: parse, and say how many payload symbols to expect.
  method FinishHeader(header: seq<Kept>, c: Config, ghost block: seq<Symbol>) returns (p: Option<Parsed>)
    requires Keeps(header, block, c, true) && |header| == 8
    ensures p == ParseBlock(block, c)
  {
    var n := ComputeBlock(header, c, true, block);
    p := ParseNibbles(n, c);
  }

  // Before any payload symbol.
  function AfterHeader(p: Option<Parsed>): Outcome {
    match p
    case None => Rejected
    case Some(p) => if p.target == 0 then Empty(!p.fields.hasCrc) else Waiting
  }

  lemma HeaderStream(block: seq<Symbol>, rest: seq<Symbol>, c: Config)
    requires ValidConfig(c) && ValidSymbols(block, c) && |block| == 8 && |rest| == 0
    ensures ValidSymbols(block + rest, c) && DecodeStream(block + rest, c) == AfterHeader(ParseBlock(block, c))
  {
    StreamIs(block, rest, c);
  }

  // A payload symbol has been kept: wait for the next one, or decode, check and deliver.
  method FinishPayloadSymbol(p: Parsed, payload: seq<Kept>, c: Config, bruteForce: bool, bruteForce2: bool,
                             allocOk: bool, ghost rest: seq<Symbol>)
    returns (outcome: Outcome, correctedBits: nat)
    requires ValidHeader(p.fields) && Keeps(payload, rest, c, c.ldro) && 0 < |payload| <= p.target
    ensures Reports(outcome, correctedBits, DecodeRest(Some(p), rest, c), bruteForce, bruteForce2, allocOk)
    ensures outcome == Waiting <==> |payload| < p.target
  {
    if |payload| < p.target {
      return Waiting, 0;
    }
    assert rest[..p.target] == rest;
    outcome, correctedBits := Deliver(p.fields, p.leftover, payload, c, bruteForce, bruteForce2, allocOk, rest);
  }

  class FrameDecoder {
    const c: Config
    const bruteForce: bool
    const bruteForce2: bool
    var stage: Stage
    var header: seq<Kept>             // header_syms or header_llrs
    var parsed: Parsed                // payload_len, ..., hdr_leftover, payload_sym_target
    var payload: seq<Kept>            // payload_syms or payload_llrs
    ghost var block: seq<Symbol>      // the header symbols,
    ghost var rest: seq<Symbol>       // and those after them

    // Every symbol since the end of the preamble.
    ghost function Symbols(): seq<Symbol>
      reads this
    {
      block + rest
    }

    ghost predicate Valid()
      reads this
    {
      && (stage.InHeader? ==> Keeps(header, block, c, true) && |header| < 8 && rest == [])
      && (stage.InPayload? ==>
          HeaderRead(block, c, parsed) && Keeps(payload, rest, c, c.ldro) && |payload| < parsed.target)
    }

    constructor (c: Config, bruteForce: bool, bruteForce2: bool)
      requires ValidConfig(c)
      ensures Valid() && stage == InHeader && Symbols() == [] && this.c == c
      ensures this.bruteForce == bruteForce && this.bruteForce2 == bruteForce2
    {
      this.c, this.bruteForce, this.bruteForce2 := c, bruteForce, bruteForce2;
      stage, header, payload, block, rest := InHeader, [], [], [], [];
    }

    method KeepHeader(y: Symbol)
      requires Keeps(header, block, c, true) && rest == [] && ValidSymbol(y, c)
      modifies `header, `block
      ensures Keeps(header, block, c, true) && |header| == old(|header|) + 1
      ensures Symbols() == old(Symbols()) + [y]
    {
      header := KeepNext(header, y, c, true, block);
      block := block + [y];
    }

    method KeepPayload(y: Symbol)
      requires Keeps(payload, rest, c, c.ldro) && ValidSymbol(y, c)
      modifies `payload, `rest
      ensures Keeps(payload, rest, c, c.ldro) && |payload| == old(|payload|) + 1
      ensures Symbols() == old(Symbols()) + [y]
    {
      payload := KeepNext(payload, y, c, c.ldro, rest);
      rest := rest + [y];
    }

    method StartPayload()
      requires ValidConfig(c) && rest == []
      modifies `payload
      ensures Keeps(payload, rest, c, c.ldro) && |payload| == 0
    {
      payload := [];
    }

    method LeaveHeader(p: Option<Parsed>) returns (outcome: Outcome)
      modifies `stage, `parsed
      ensures outcome == AfterHeader(p)
      ensures stage == (if outcome == Waiting then InPayload else Idle)
      ensures outcome == Waiting ==> p == Some(parsed)
    {
      outcome := AfterHeader(p);
      if p.Some? {
        parsed := p.value;
      }
      stage := if outcome == Waiting then InPayload else Idle;
    }

    method EndHeader() returns (outcome: Outcome)
      requires Keeps(header, block, c, true) && |header| == 8 && Keeps(payload, rest, c, c.ldro) && |payload| == 0
      modifies `stage, `parsed
      ensures Valid() && ValidSymbols(Symbols(), c) && outcome == DecodeStream(Symbols(), c)
      ensures outcome == Waiting <==> stage != Idle
    {
      HeaderStream(block, rest, c);
      var p := FinishHeader(header, c, block);
      outcome := LeaveHeader(p);
    }

    method EndPayloadSymbol(allocOk: bool) returns (outcome: Outcome, correctedBits: nat)
      requires ValidHeader(parsed.fields) && Keeps(payload, rest, c, c.ldro)
      requires stage == InPayload && 0 < |payload| <= parsed.target
      modifies `stage
      ensures Reports(outcome, correctedBits, DecodeRest(Some(parsed), rest, c), bruteForce, bruteForce2, allocOk)
      ensures stage == (if |payload| < parsed.target then InPayload else Idle)
      ensures outcome == Waiting <==> stage != Idle
    {
      outcome, correctedBits := FinishPayloadSymbol(parsed, payload, c, bruteForce, bruteForce2, allocOk, rest);
      if outcome != Waiting {
        stage := Idle;
      }
    }

    method TickPayload(y: Symbol, allocOk: bool) returns (outcome: Outcome, correctedBits: nat)
      requires Valid() && stage == InPayload && ValidSymbol(y, c)
      modifies `stage, `payload, `rest
      ensures Valid() && Symbols() == old(Symbols()) + [y]
      ensures ValidConfig(c) && ValidSymbols(Symbols(), c)
      ensures Reports(outcome, correctedBits, DecodeStream(Symbols(), c), bruteForce, bruteForce2, allocOk)
      ensures outcome == Waiting <==> stage != Idle
    {
      KeepPayload(y);
      outcome, correctedBits := EndPayloadSymbol(allocOk);
      StreamReports(block, rest, c, parsed, outcome, correctedBits, bruteForce, bruteForce2, allocOk);
    }

    method TickHeader(y: Symbol) returns (outcome: Outcome)
      requires Valid() && stage == InHeader && ValidSymbol(y, c)
      modifies `stage, `header, `parsed, `payload, `block
      ensures Valid() && Symbols() == old(Symbols()) + [y]
      ensures ValidConfig(c) && ValidSymbols(Symbols(), c) && outcome == DecodeStream(Symbols(), c)
      ensures outcome == Waiting <==> stage != Idle
    {
      KeepHeader(y);
      if |header| < 8 {
        return Waiting;
      }
      StartPayload();
      outcome := EndHeader();
    }

    // One symbol.  Until the frame ends, or its header is rejected, the decoder waits;
    // what it then reports is a function of the symbols alone, a failed frame being
    // reported as the searches leave it.
    method Tick(y: Symbol, allocOk: bool) returns (outcome: Outcome, correctedBits: nat)
      requires Valid() && stage != Idle && ValidSymbol(y, c)
      modifies this
      ensures Valid() && Symbols() == old(Symbols()) + [y]
      ensures ValidConfig(c) && ValidSymbols(Symbols(), c)
      ensures Reports(outcome, correctedBits, DecodeStream(Symbols(), c), bruteForce, bruteForce2, allocOk)
      ensures outcome == Waiting <==> stage != Idle
    {
      if stage == InHeader {
        correctedBits := 0;
        outcome := TickHeader(y);
      } else {
        outcome, correctedBits := TickPayload(y, allocOk);
      }
    }
  }
}
