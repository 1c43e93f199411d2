# meshcore-sniffer, modelled and proved in Dafny

meshcore-sniffer receives LoRa radio frames with a software-defined radio, decodes
them, folds the replicas that neighbouring channel decoders produce into one frame, and
publishes the result.  This project models the parts whose correctness is not visible
from reading one function:

- **Payload CRC and bit recovery** (`Bits`, `CrcPolynomial`, `LoraCrc`).  The LoRa check
  value is a remainder modulo x^16 + x^12 + x^5 + 1.  From the order of x, which is
  exactly 32767, and from parity, follow what the one-bit and two-bit searches can and
  cannot do.
- **Frame codec** (`LoraSymbols`, `LoraHamming`, `LoraSoft`, `SymbolLlrs`, `LoraBlocks`,
  `LoraWhitening`, `LoraFrame`, `HeaderErrors`, `FrameDecoder`, `FrameRecovery`).  A
  reference transmitter, and the decoder from symbols to delivered bytes as its inverse, on
  the hard and on the soft path, one symbol at a time; and what is delivered when one or two
  bits of the header or of the payload are received wrong.
- **Fair lock and blocking queue** (`FairLockProtocol`, `CondQueue`, `FairLock`,
  `QueueProtocol`, `QueueOutcomes`, `CircularQueue`, `BlockingQueue`).  Two state machines
  over every interleaving, and what each call may come back with.  The fair lock's linked lists refine the first; the queue's flags and its
  circular buffer refine the second, in which the two fair locks appear as states of the
  first.
- **Dedup ring and drainer** (`Fingerprint`, `Dedup`, `DedupRuns`, `DedupTiers`,
  `DedupClusters`, `DedupRing`).  Which replicas share a cluster, and what is emitted when,
  over every run of arrivals, drainer ticks and the final flush.
- **IQ ring and snapshots** (`IqRing`, `Snapshot`, `SnapshotQueue`, `SnapshotWriter`).  A
  wrapped buffer as an append-only log, a reader that races its writer, and an accounting
  of every event.
- **Focused filter and symbol clock** (`FocusedDdc`, `Mixer`, `SampleClock`,
  `SymbolPoints`).  A mirrored delay line behind a mixer as a decimated convolution; drift
  correction as windows on a drifting grid, and the sample each dechirp point reads.
- **Geofence and SNR history** (`Geofence`, `GeofenceTable`, `SnrHistory`).  An
  open-addressed table as a map, and a ring of time buckets as a histogram.

`Arithmetic`, `Bits`, `RingWindow` and `Wrappers` hold what several of these share.

Words of a fixed width are sequences of bits, least significant first.  Samples, soft
bits and signal-to-noise ratios are reals.  Clocks, allocation results, the choice of the
thread a signal wakes, samples appended and steps made by other threads and the geometry
of a polygon are parameters.  Mutable structures are classes; each method is proved against
a function of the old state, and the theorems are about those functions.

## Properties that do not hold as promised

- The one-bit search restores every single-bit error of a frame length exactly when the
  payload has at most 4095 bytes (`OneBitRestoresIff`); the decoder's buffer keeps it
  well below that.
- The two-bit search restores every two-bit error of a frame length exactly when the
  payload has two bytes (`EveryTwoBitRestoredIff`, `TwoBitMisrepairs`); which errors it
  restores depends on the two positions and the length alone (`TwoBitRestoresIff`).  Up to
  254 bytes a two-bit error it does not restore is delivered as another payload that passes
  the check (`TwoWrongBits`), as lora.c:389-400 warns it may be.
- The hard Hamming decoder repairs no data bit at any rate: after one inverted bit the
  nibble is right exactly when the bit is a parity bit (`InvertedDecodesIff`).  At rates 4/7
  and 4/8 an inverted data bit k comes out with bit 3 - k inverted as well
  (`InvertedData`).
- A frame with a CRC is accepted for every payload of its length exactly for 2 to 254
  payload bytes (`CrcFramePassesIff`): one byte has no check, and 255 bytes plus the CRC
  exceed the 256-byte buffer.
- A frame without CRC whose nibbles all fit into the header block (one byte from
  spreading factor 9 on, two from 11 on) is delivered empty (`FrameRoundTrip`).
- A snapshot contains the lock sample for every lock exactly when the post-window rounds
  to at least one sample (`ContainsEveryLockIff`).
- The drift accumulator stays within one sample for ever exactly when the drift per symbol
  is at most one input sample (`AlwaysBoundedIff`).
- Boundary shift and fine shift do not always add up to the total drift.  Without
  oversampling there is no fine shift, and a point is right exactly when the boundary
  shifts are the rounded drift (`PlainPickedIsIdealIff`, `PlainPointIsOff`).  With
  oversampling a point is right exactly when its index is inside the window and there was
  no rounding tie after an odd net shift, or when the clamp happens to undo that
  (`PickedIsIdealIff`, `ClampedPointIsOff`, `TiedPointIsOff`, `ClampUndoesTie`).
- The lock stamp of the focused worker is not the sample of the output it belongs to: it
  is late by one sample to a whole decimation step (`OutputIsStamped`).
- SNR samples in time bucket zero are counted with the first later bucket, because zero
  also means "no sample yet", and counts wrap at 65536; `ReadsTrueIff` says exactly when
  either shows, `ZeroBucketMoves` and `FullBucketWraps` give instances.

Where comments and code disagree the code is modelled: dedup.c:162 speaks of a window of
200 microseconds for the third tier where the code uses the 30 millisecond cluster
window, and lora.c:2183-2192 describes a threshold of half an input sample and shifts in
one direction only where the code compares with one output sample and shifts both ways.

## Model

| member | source | states |
|---|---|---|
| CrcPolynomial.StepKeepsParity | lora.c:335-336 | one CRC iteration keeps the parity of the word, because the generator has an even number of terms |
| CrcPolynomial.StepsLinear | lora.c:335-336 | any number of CRC iterations is linear over XOR |
| CrcPolynomial.PowSquare | lora.c:335-336 | squaring a power of x doubles its exponent |
| CrcPolynomial.Order | lora.c:330-339 | x to the d is 1 modulo the generator for no 0 < d < 32767 |
| CrcPolynomial.PowPeriod | lora.c:330-339 | x to the 32767 is 1, so the order is exact |
| LoraCrc.ComputeCrc16 | lora.c:330-339 | the byte loop computes the CRC function |
| LoraCrc.ComputeCheck | lora.c:359-361 | the loop over all but two bytes, XORed with the last two, computes the check value |
| LoraCrc.CheckIsRemainder | lora.c:2071-2076 | CRC of all but two bytes XORed with those two is the remainder of the whole payload as a polynomial |
| LoraCrc.PassesByBits | lora.c:2071-2077 | a frame passes exactly when the two bytes after the payload are that remainder, low byte first |
| LoraCrc.FlipRemainder | lora.c:378-380 | inverting a payload bit adds one fixed power of x to the remainder, whatever the rest of the payload |
| LoraCrc.RepairsIff | lora.c:341-368 | a flip repairs a frame exactly when its power of x is the mismatch |
| LoraCrc.RepairsPairIff | lora.c:401-472 | two flips repair a frame exactly when their powers add up to the mismatch |
| LoraCrc.TiersExclusive | lora.c:2080-2112 | no frame of any length can be repaired both by one flip and by two, so the order of the tiers cannot matter |
| LoraCrc.DistinctPowers | lora.c:341-368 | no two bits of a payload of up to 4095 bytes have the same effect on the check |
| LoraCrc.OneBitRestores | lora.c:341-368 | one inverted payload bit of a good frame of up to 4097 bytes is undone exactly by the one-bit search |
| LoraCrc.OneBitMisrepairs | lora.c:341-368 | in every longer good frame one particular inverted bit is not undone |
| LoraCrc.OneBitRestoresIff | lora.c:341-368 | every single-bit error is undone exactly when the payload has at most 4095 bytes |
| LoraCrc.BruteForceOne | lora.c:341-368 | succeeds exactly when some bit repairs the frame; flips the first such bit, changes nothing otherwise |
| LoraCrc.AdvanceRow | lora.c:437-444 | one step of the backward recurrence takes the deltas of a byte to those of the byte before it |
| LoraCrc.FillDeltas | lora.c:425-452 | the table holds, for every payload bit, the power of x by which the bit changes the check |
| LoraCrc.FirstIndexTable | lora.c:454-455 | the table gives for every delta value the first index that has it, and says which values there are |
| LoraCrc.FindPair | lora.c:457-462 | one pass finds the first two distinct bits that cancel the mismatch, exactly when there are any |
| LoraCrc.SearchPair | lora.c:415-467 | the linear-time search finds the first cancelling pair, exactly when there is one |
| LoraCrc.TwoBitRestoresIff | lora.c:401-472 | for frames of any length, a two-bit error of a good frame is undone exactly when no earlier pair of bits has its effect and no earlier bit that of its second one |
| LoraCrc.EveryTwoBitRestoredIff | lora.c:401-472 | every two-bit error is undone exactly when the payload has two bytes |
| LoraCrc.TwoBitMisrepairs | lora.c:457-470 | in every longer good frame two particular inverted bits are not undone |
| LoraCrc.BruteForceTwo | lora.c:401-472 | succeeds exactly when the check fails, the tables can be allocated and some pair of bits repairs the frame; flips the first such pair and nothing else, changes nothing otherwise |
| LoraCrc.VerifyAndRecover | lora.c:2071-2112 | the reported number of corrected bits says exactly which search was able to repair, the bytes are what that search leaves and pass the check, and an uncorrected frame is untouched |
| LoraSymbols.GrayDecodeEncode | lora.c:253-259 | the gray map of the receiver undoes the one of the transmitter |
| LoraSymbols.ComputeGrayEncode | lora.c:254-259 | the shifting loop computes the inverse of the gray map |
| LoraSymbols.DeinterleaveBlock | lora.c:488-507 | the loops fill the bit matrix along the diagonals |
| LoraSymbols.DeinterleaveRows | lora.c:488-516 | the rows read from that matrix are the deinterleaved codewords |
| LoraSymbols.DeinterleaveInterleave | lora.c:488-516 | the receiver's diagonal map undoes the transmitter's for every block size |
| LoraSymbols.DeinterleavedBit | lora.c:488-516 | bit j of symbol 0 belongs to codeword sf - 1 - j, and in each later symbol to the next codeword, around the end |
| LoraSymbols.SymbolRoundTrip | lora.c:1995-1998 | shifting, reduced-rate division and gray map recover a symbol's bits from its bin, for every preamble bin |
| LoraSymbols.SymbolBitIs | lora.c:1995-1998 | bit j of a symbol, from the most significant, is the sum of two neighbouring bits of the bin less the preamble bin and one, divided by four at reduced rate |
| LoraHamming.HammingDecode | lora.c:279-328 | weight loop and syndrome switch compute the decoding function: at 4/5 and 4/6 the data bits as received, at 4/7 and 4/8 with the bit inverted that the disagreeing parity bits name |
| LoraHamming.CleanDecodes | lora.c:279-328 | a clean codeword decodes to its nibble at every rate |
| LoraHamming.InvertedDecodesIff | lora.c:297-323 | with one inverted bit the nibble is right exactly when the bit is a parity bit |
| LoraHamming.InvertedData | lora.c:297-323 | at 4/7 and 4/8 one inverted data bit k gives the nibble with exactly the bits k and 3 - k inverted |
| LoraHamming.InvertedPair | lora.c:297-323 | at 4/8 any two inverted bits leave the data bits as they were received |
| LoraHamming.HitDecodes | lora.c:297-323 | the result for every word at 4/7 and 4/8: parity bits 0 and 1, 0 and 2, 1 and 2, or all three of them in disagreement invert data bit 1, 3, 0 or 2 and no other, at 4/8 only if the number of disagreements is odd; any other disagreement inverts nothing |
| LoraSoft.TableIsCode | lora.c:1190-1197 | the two codeword tables hold the transmitter's codewords |
| LoraSoft.ComputeScore | lora.c:1198-1205 | the loop computes the score of one codeword |
| LoraSoft.FirstBestIff | lora.c:1196-1206 | exactly one codeword is the first of greatest score: the one the loop keeps |
| LoraSoft.SoftDecode | lora.c:1183-1214 | returns the nibble of that codeword |
| LoraSoft.ScoreDifference | lora.c:1198-1206 | two scores differ by twice the sum of the soft bits in which the codewords differ |
| LoraSoft.CodeDistance | lora.c:1190-1193 | distinct codewords differ in at least two, two, three and four bits at rates 4/5 to 4/8 |
| LoraSoft.SoftDecodesSent | lora.c:1183-1214 | with at most one wrong-signed bit that any two others outweigh at 4/7, any three at 4/8, the sent nibble has the greatest score |
| LoraSoft.SoftAgreesWithHard | lora.c:279-328 | what the soft decoder then returns is the hard decoding of the clean codeword |
| SymbolLlrs.HeardLlr | lora.c:1125-1155 | when a bin exceeds every bin of another symbol value by a margin, each soft bit has the sign of its bit and at least the margin |
| SymbolLlrs.LlrIs | lora.c:1137-1155 | each soft bit is the greatest power among the bins that have the bit set less the greatest among those that have it clear |
| SymbolLlrs.FadedLlr | lora.c:1125-1155 | soft bits of a symbol whose bins all stay below a limit stay below it, right or wrong |
| SymbolLlrs.ComputeLlrs | lora.c:1125-1155 | the accumulator loop computes the strongest bin with a bit set less the strongest with it clear, for every bit, most significant first |
| LoraWhitening.WhitenTwice | lora.c:228-251 | whitening twice is the identity |
| LoraWhitening.EntrySteps | lora.c:228-245 | each of the first 255 table entries is the one before it shifted left, with the sum of its bits 7, 5, 4 and 3 as the new bit 0 |
| LoraWhitening.WhitenIs | lora.c:228-251 | payload byte i is summed with the state of that register after i steps from all ones |
| LoraWhitening.Dewhiten | lora.c:247-251 | whitens the first bytes in place, no further than the table, and leaves the rest |
| LoraBlocks.HardBlockRoundTrip | lora.c:2032-2038 | decoding the transmitter's bins returns the nibbles, at every rate and spreading factor, at full or reduced rate |
| LoraBlocks.SoftRowsRecover | lora.c:1162-1177 | with at most one outweighed bit per codeword, wherever it is, the soft path returns the sent nibbles |
| LoraBlocks.SoftBlockRoundTrip | lora.c:1099-1214 | with every symbol but one heard at its sent bin by a margin, and that one arbitrary but below MinDistance - 1 margins, the soft path returns the sent nibbles |
| LoraBlocks.LoudestArrives | lora.c:1099-1156 | symbols whose sent bin is strictly strongest are heard |
| LoraBlocks.BlockRoundTrip | lora.c:2019-2045 | so on either path a block that arrives decodes to what was sent |
| LoraBlocks.ComputeBlock | lora.c:2026-2038 | deinterleaving and decoding loops compute the block function on either path |
| LoraFrame.PackUnpack | lora.c:2039-2044 | nibbles sent low first pack to the bytes they came from, whatever follows |
| LoraFrame.PackedBit | lora.c:2039-2044 | bit j of a byte is bit j % 4 of its first nibble or, in the upper half, of its second |
| LoraFrame.HeaderRoundTrip | lora.c:1890-1909 | a sent header passes its checksum and yields length, rate and CRC flag |
| HeaderErrors.AcceptedIff | lora.c:1890-1919 | a header is accepted exactly when five parities, given by a table of which check bits cover which of the 17 bits, are even and the length is not zero |
| HeaderErrors.AcceptedFields | lora.c:1890-1893 | length, CRC flag and rate of an accepted header, bit by bit, with 4/5 for the rates that do not exist |
| HeaderErrors.OneWrongBitRefused | lora.c:1899-1919 | an accepted header with any one of its 17 protected bits inverted is refused |
| HeaderErrors.TwoWrongBitsRefused | lora.c:1899-1919 | and with any two of them inverted |
| HeaderErrors.WrongHeaderRejected | lora.c:1813-1919 | the symbols of such a header block are rejected, whatever follows |
| LoraFrame.TargetIsLeast | lora.c:1956-1964 | the symbol target is the least whole number of blocks that carries payload and CRC together with the header's leftover nibbles, and the cap never applies |
| LoraFrame.BlocksRoundTrip | lora.c:2019-2046 | decoding any number of blocks that arrive returns their nibbles |
| LoraFrame.ReceivedIsSent | lora.c:2047-2057 | clipping and dewhitening return the sent bytes as far as the buffer holds them |
| LoraFrame.FrameRoundTrip | lora.c:1813-2132 | on either path every frame that arrives is delivered as sent, clipped to the buffer, and delivered empty exactly when it fits into the header block |
| LoraFrame.FrameEnds | lora.c:1956-2003 | the decoder waits for exactly the symbols of the frame |
| LoraFrame.SealedFrameDelivered | lora.c:1813-2132 | for 2 to 254 bytes with their CRC what is delivered is payload and CRC, with the check passed |
| LoraFrame.PlainFrameDelivered | lora.c:1813-2132 | a frame without CRC is delivered as sent and counts as passed, or is delivered empty if it fits into the header block |
| LoraFrame.OneByteFrameFails | lora.c:2059-2077 | a one-byte payload with a CRC is delivered as failed, whatever the CRC bytes |
| LoraFrame.CrcFramePassesIff | lora.c:2059-2077 | the check accepts every payload of a length exactly for lengths 2 to 254 |
| LoraFrame.TooLongFails | lora.c:2048-2077 | a payload of 255 bytes that the check rejects |
| FrameDecoder.CollectAll | lora.c:2034-2045 | the nibble loop packs bytes across block boundaries and stops at a full buffer |
| FrameDecoder.CollectPayload | lora.c:2012-2046 | leftover nibbles and block loop yield the first bytes of the whole nibble stream |
| FrameDecoder.FinishPayload | lora.c:2047-2132 | bytes, flag and number of corrected bits are those of the received frame as the searches leave it: corrected exactly when a search that is on can repair it, and a good frame is never touched |
| FrameDecoder.FrameDecoder.Tick | lora.c:1813-2175 | symbol by symbol, the state machine waits, rejects or delivers as the stream of symbols says, a failed frame as the searches leave it |
| FrameRecovery.CarriesBitOff | lora.c:2039-2057 | one wrong bit of the nibbles on air is one wrong bit of the payload, through packing and whitening |
| FrameRecovery.OneWrongBit | lora.c:1813-2132 | a frame of 2 to 254 bytes with its CRC received with one payload bit wrong is delivered as sent with one corrected bit when the search is on, and as received with the check failed when it is off |
| FrameRecovery.TwoWrongBits | lora.c:1813-2132 | with two payload bits wrong and both searches on two bits are corrected and the check passes, and the payload is the sent one exactly when the two positions are restorable; otherwise the frame is delivered as received |
| FrameRecovery.ReceiveFrame | lora.c:2236-2262 | fed with the symbols of a frame that arrives, the decoder waits up to the last one and then reports what the symbols say |
| FairLockProtocol.StepKeepsInv | fair_lock.h:225-289 | every critical section keeps the invariant: arrival order, one owner, one pending hand-off, waiting count, no lost wakeup, only weak requests abandoned |
| FairLockProtocol.RunKeepsInv | fair_lock.h:225-289 | so every interleaving does |
| FairLockProtocol.InvApart | fair_lock.h:232-247 | queue, hand-off and abandoned requests never share a caller |
| FairLockProtocol.StrongCallersInArrivalOrder | fair_lock.h:91-94 | strong callers are served in the order they asked, and none is ever abandoned |
| FairLockProtocol.AbandonedUntilAwake | fair_lock.h:174-252 | a weak caller taken out of the queue is told so once: it counts as abandoned until it has woken up and not after |
| CondQueue.CondQueue.Enqueue | fair_lock.h:122-150 | an entry from the pool, or a new one, goes to the rear of the list; fails only without memory |
| CondQueue.CondQueue.Dequeue | fair_lock.h:152-167 | takes the front entry out of the list |
| CondQueue.CondQueue.Release | fair_lock.h:169-172 | returns an entry to the pool |
| CondQueue.CondQueue.ScanQueue | fair_lock.h:175-193 | the loop leaves the strong entries as one list in order and the weak ones marked |
| CondQueue.CondQueue.AbandonWeak | fair_lock.h:174-196 | the list is the strong entries in order, every weak one is marked and counted |
| FairLock.FairLock.Request | fair_lock.h:225-239 | is exactly the protocol's request step, with the error returns |
| FairLock.FairLock.Wake | fair_lock.h:239-252 | is exactly the wake step; an abandoned caller is weak and does not get the lock |
| FairLock.FairLock.Unlock | fair_lock.h:262-274 | is exactly the unlock step; signals the oldest waiting caller, never an abandoned one |
| FairLock.FairLock.BlockWeakLocks | fair_lock.h:276-282 | is exactly the block step, and marks every weak waiter |
| FairLock.FairLock.AllowWeakLocks | fair_lock.h:284-289 | is exactly the allow step |
| QueueProtocol.StepKeepsInv | blocking_queue.h:402-537 | every step of every caller keeps the queue's invariant |
| QueueProtocol.RunKeepsInv | blocking_queue.h:402-537 | so every interleaving of put, add, take, poll and close does |
| QueueProtocol.ElementsInOrder | blocking_queue.h:351-365 | elements leave in insertion order, none lost, duplicated or made up |
| QueueProtocol.WokenFindsWork | blocking_queue.h:450-457 | the commented-out assertions after the two waits hold: a woken put finds room, a woken take an element |
| QueueProtocol.MoveFindsWork | blocking_queue.h:351-365 | the assertions of enqueue and dequeue hold, and nothing moves in a closed queue |
| QueueProtocol.SignalReachesOtherSide | blocking_queue.h:464-464 | the shared condition variable never wakes a caller of the signaller's side |
| QueueProtocol.NoLostWakeup | blocking_queue.h:504-515 | a caller waits only while there is nothing for it to do |
| QueueProtocol.TurnedAwayOnlyWhenStuck | blocking_queue.h:417-443 | weak calls are turned away at the lock only while the queue is full, or empty |
| QueueProtocol.MutualExclusion | blocking_queue.h:402-537 | one caller per side past its lock, one caller under the mutex |
| QueueProtocol.ClosedIsFinal | blocking_queue.h:322-340 | once closed, the contents never change |
| QueueProtocol.CallersInArrivalOrder | blocking_queue.h:405-410 | blocking callers of each side are served in the order they asked |
| QueueProtocol.ElementIsTheArgument | blocking_queue.h:402-473 | what a caller brings is what it was called with |
| QueueProtocol.AddAppendsItsElement | blocking_queue.h:464-466 | a move of the adding side appends that caller's element |
| QueueOutcomes.TakeMutexLeads | blocking_queue.h:422-459 | with the mutex taken, a closed queue is left; a caller that can move an element does; one without memory to grow and one that does not wait leave; the others wait with the mutex free |
| QueueOutcomes.OthersLead | blocking_queue.h:440-463 | where a caller goes after blocking weak locks, after a wait and after letting weak callers in |
| QueueOutcomes.LeavesOnlyWithReason | blocking_queue.h:422-459 | over every run, a caller that leaves empty-handed found the queue closed, or does not wait and found it full (for a get: empty), or found a boundless queue full |
| QueueOutcomes.LeavesBoundlessOutOfMemory | blocking_queue.h:431-438 | in the last case, unless the queue was closed, its own attempt to grow the buffer had failed |
| QueueOutcomes.StrongMovesOrWaits | blocking_queue.h:431-459 | in an open queue a blocking caller never leaves empty-handed, except an add to a boundless queue that cannot grow |
| QueueOutcomes.ClosedIff | blocking_queue.h:322-331 | over every run a queue is closed exactly when it has been closed |
| QueueOutcomes.MovesOneOrNone | blocking_queue.h:464-473 | no caller moves two elements; one that unlocks after its move has moved exactly one, one that leaves none |
| QueueOutcomes.MovesCounted | blocking_queue.h:464-537 | the elements added and removed are as many as the moves of the two sides |
| CircularQueue.CircularQueue.Enqueue | blocking_queue.h:351-356 | appends, across the wrap |
| CircularQueue.CircularQueue.Dequeue | blocking_queue.h:358-365 | removes the first element, across the wrap |
| CircularQueue.CircularQueue.Grow | blocking_queue.h:380-400 | doubles the capacity and keeps the contents, wrapped or not; without memory changes nothing and says so |
| BlockingQueue.BlockingQueue.TakeMutex | blocking_queue.h:422-459 | on buffer and flags, the code from the mutex to the first wait or move is exactly the protocol's step, the buffer grown where the protocol's capacity is; it leaves, blocks weak locks or waits exactly in the cases the flags and the fill level say |
| BlockingQueue.BlockingQueue.SetBlocked | blocking_queue.h:440-450 | setting the flag and going on or waiting is exactly the block step |
| BlockingQueue.BlockingQueue.Resume | blocking_queue.h:450-457 | a woken caller goes on as the protocol says |
| BlockingQueue.BlockingQueue.ClearBlocked | blocking_queue.h:460-463 | clearing the other side's flag is exactly the allow step |
| BlockingQueue.BlockingQueue.MoveIn | blocking_queue.h:464-466 | the enqueue into the buffer is exactly the protocol's move |
| BlockingQueue.BlockingQueue.MoveOut | blocking_queue.h:528-530 | the dequeue is exactly the protocol's move, and returns what the protocol removes |
| BlockingQueue.BlockingQueue.Close | blocking_queue.h:324-331 | closing is the close step |
| BlockingQueue.BlockingQueue.Elsewhere | blocking_queue.h:405-425 | the steps at the fair locks, outside the mutex and of closing signals touch neither buffer nor flags |
| BlockingQueue.BlockingQueue.BufferInOrder | blocking_queue.h:351-365 | after every run, everything added is what was removed followed by what the buffer holds |
| Fingerprint.ComputeFingerprint | dedup.c:64-77 | the two loops compute the fingerprint function |
| Fingerprint.FoldDistance | dedup.c:66-72 | after any number of words the accumulators of two payloads differ in at most as many bits as the words, with the same parity |
| Fingerprint.FingerprintDistance | dedup.c:61-77 | payloads that differ in k bits have fingerprints that differ in at most k bits, with the parity of k |
| Fingerprint.FlipMoves | dedup.c:64-77 | inverting a payload bit inverts one fingerprint bit: its own position for the last, partial word, and one further on for its word and each whole word after it |
| Fingerprint.ZeroFingerprint | dedup.c:64-77 | the fingerprint of zeros is zero |
| DedupTiers.MatchIff | dedup.c:124-192 | a replica joins a cluster exactly when some live one of its spreading factor and bandwidth has a fingerprint within 14 bits (22 if the replica failed its CRC), or is at most 500 microseconds old with slots within three, or, for a failed replica, is at most 30 ms old with a good winner |
| DedupTiers.MatchOrder | dedup.c:124-192 | it joins the first near one; if none is near, the first adjacent one; if none is adjacent, the first good one |
| DedupTiers.OpensItsOwn | dedup.c:226-266 | a replica that matches nothing opens its own cluster in the first free slot, to be emitted after 30 ms; unless it failed its CRC the failed clusters of its radio up to 30 ms old are freed, and every other stays as it was |
| DedupTiers.FarReplicaOpensItsOwn | dedup.c:126-136 | over every run, a good replica without a slot that is more than 14 bits from every live cluster of its radio opens its own when a slot is free |
| DedupTiers.DroppedIff | dedup.c:226-270 | an accepted replica is dropped exactly when it matches nothing and every slot is taken |
| DedupTiers.RefusedIff | dedup.c:82-82 | a replica leaves no trace exactly when it is shorter than 14 bytes or longer than 256 |
| DedupRuns.SoundFold | dedup.c:193-225 | folding a replica in keeps the winner a member and the greatest, the count, the fingerprint and the slot range |
| DedupRuns.StepKeeps | dedup.c:79-271 | every arrival, drainer tick and flush keeps every cluster sound |
| DedupRuns.LedgerBalances | dedup.c:123-271 | after every run, clusters and drops together hold each accepted replica exactly once |
| DedupRuns.Conservation | main.c:1048-1093 | accepted replicas are the counts of emitted, live and suppressed clusters plus the drops for a full ring |
| DedupRuns.WinnerIsMaximum | dedup.c:206-219 | an emitted cluster's winner is a member and the lexicographic maximum of (good, SNR) over the members, and the count is their number |
| DedupClusters.RunFits | dedup.c:193-266 | over every run, each cluster is to be emitted 30 ms after its first member arrived, its winner beats every earlier member and no later one beats it, and its slot range is exactly that of its members |
| DedupClusters.EmittedAfterWindow | main.c:1055-1064 | no tick emits a cluster before its first member is 30 ms old, and a tick that emits fewer than 64 leaves none that is |
| DedupRuns.NotSuppressed | dedup.c:235-248 | a CRC-good replica is never in a suppressed cluster |
| DedupRuns.GoodIsEmittedOnce | main.c:1077-1093 | after the flush, each CRC-good replica not dropped for a full ring is in exactly one emitted cluster, of its spreading factor and bandwidth, whose winner is good with SNR at least as high |
| DedupRuns.NearReplicaFoldsIn | dedup.c:126-136 | a replica within 14 bit errors of a live cluster's best payload (22 if its CRC failed) is folded in, and no cluster opens, closes or is emitted |
| DedupRuns.FailFoldsIntoPass | dedup.c:178-192 | a CRC-fail replica never opens a cluster while a live cluster of its radio parameters, opened within the window, has a CRC-good winner |
| DedupRuns.AdjacentFoldsIn | dedup.c:141-157 | nor does a replica whose slot is within three of a cluster opened in the last half millisecond |
| DedupRuns.PassSuppressesFails | dedup.c:227-248 | opening a cluster for a replica that did not fail its CRC frees exactly the live clusters of its radio parameters, opened within the window, without a CRC-good winner |
| DedupRuns.DrainEmitsExpired | main.c:1055-1064 | a tick emits only expired clusters, at most 64, and leaves an expired one live only when the batch is full |
| DedupRing.DedupRing.FindMatch | dedup.c:124-192 | the three scans find the matching entry |
| DedupRing.DedupRing.Buffer | dedup.c:79-271 | the in-place update is the arrival step |
| DedupRing.DedupRing.Drain | main.c:1048-1069 | one tick is the drain step; the batch is at most 64 entries and exactly what is emitted |
| DedupRing.DedupRing.Stop | main.c:1077-1093 | the final sweep is the flush step and returns exactly what is emitted |
| IqRing.IqRing.Append | iq_ring.c:60-92 | any batch, also one larger than the ring, extends the log; returns the index of its first sample |
| IqRing.IqRing.GetWindow | iq_ring.c:94-126 | returns the log clipped to what is written and not aged out; full length exactly when nothing was clipped |
| IqRing.IqRing.LiveRange | iq_ring.c:128-145 | the live range is the part of the log still in the ring |
| Snapshot.ContainsLockIff | iq_snapshot.c:250-257 | the window holds the lock index exactly when the post-window is not empty or the lock is within the pre-window of the start |
| Snapshot.ContainsEveryLockIff | iq_snapshot.c:250-257 | it does so for every lock exactly when post-window times rate is at least half a sample |
| Snapshot.SamplesNearest | iq_snapshot.c:250-254 | a window is rounded to the nearest number of samples |
| Snapshot.WaitFor | iq_snapshot.c:265-277 | ends at the first look that sees enough samples, or at the 668th |
| Snapshot.Extract | iq_snapshot.c:279-341 | with the window recorded, it is kept whole if it is still in the ring when it is copied and every library call succeeds, and otherwise missed or failed |
| Snapshot.HandleEvent | iq_snapshot.c:248-341 | whatever is appended between the looks: timed out exactly when the log ends before the window, missed exactly when the window begins before the ring's oldest sample, failed exactly when a library call failed, and otherwise kept, with exactly the log from start to start + pre + post |
| SnapshotQueue.StepKeepsInv | iq_snapshot.c:449-468 | every step of callers and writer keeps the account of events and the order of the queue |
| SnapshotQueue.QuiescentBalance | iq_snapshot.c:343-388 | with nothing in flight, enqueued equals below-SNR, queue-full, kept, timed-out, missed and failed, and the writer has handled exactly the admitted events in order |
| SnapshotQueue.CountersCount | iq_snapshot.c:265-468 | over every run each counter is the number of events that were announced, filtered, refused by a full queue, or finished as kept, timed out or missed |
| SnapshotQueue.Recorder.TryPush | iq_snapshot.c:457-467 | the critical section is the push step, refused exactly when the queue is full |
| SnapshotQueue.CallAlone | iq_snapshot.c:449-468 | a call counts its event and queues it, or counts why not, and changes nothing else |
| SnapshotQueue.Recorder.Enqueue | iq_snapshot.c:449-468 | whatever other threads do before it takes the lock, a call makes exactly the protocol's steps |
| SnapshotQueue.Recorder.Pop | iq_snapshot.c:374-377 | the critical section is the take step and returns the oldest event |
| SnapshotQueue.Recorder.Dispose | iq_snapshot.c:265-341 | a kept, timed-out or missed event adds one to its own counter and to no other; a failed library call adds to none |
| SnapshotWriter.HandleNext | iq_snapshot.c:374-381 | whatever callers do meanwhile, a turn of the writer takes the oldest event, judges it by the log at the last look, and adds one to the counter of that outcome and to no other |
| FocusedDdc.Ddc.Push | focused.c:274-279 | the mirrored writes keep the window at the head contiguous and in order |
| FocusedDdc.Ddc.Fir | focused.c:282-286 | the dot product over the window is the convolution at the newest sample |
| FocusedDdc.ImpulseResponse | focused.c:274-286 | the filter's answer to a single sample is that sample times the taps, the last tap first, and nothing before or after |
| FocusedDdc.DotSum | focused.c:282-286 | the filter of a sum of streams is the sum of the filtered streams |
| FocusedDdc.DecimatedPrefix | focused.c:259-291 | outputs do not depend on what follows |
| FocusedDdc.OutputIsStamped | focused.c:238-246 | a stamp is late by the chunk's phase plus one, at least one sample and at most the decimation |
| FocusedDdc.Ddc.ProcessChunk | focused.c:228-296 | over any split into chunks the outputs are the decimated convolution of the stream; output k of a chunk comes from its sample k * decim - phase - 1 and is stamped as above |
| Mixer.PhasorDirection | focused.c:264-273 | for any step but zero the running phasor is the power of the step scaled by a positive gain |
| Mixer.PhasorLength | focused.c:264-273 | its length depends only on the samples since the last renormalisation |
| Mixer.RenormalisedIsUnit | focused.c:266-273 | it has unit length after each renormalisation |
| Mixer.UnitStepIsExact | focused.c:264-273 | for a step of unit length it is the power of the step and renormalisation changes nothing |
| Mixer.MixedIsShifted | focused.c:263-265 | every mixed sample is the raw one turned by the power of the step, up to the gain |
| Mixer.PowerTurns | focused.c:263-265 | after n samples the ideal rotation has turned by n times the angle of one step |
| Mixer.ToneShifted | focused.c:263-265 | mixing adds the angles of sample and rotation |
| Mixer.FocusedWorker.MixOne | focused.c:264-273 | one round of the loop multiplies by the phasor of this sample and leaves that of the next |
| Mixer.FocusedWorker.Process | focused.c:228-296 | over any split into chunks, what is fed to the decoder is the decimated convolution of the frequency-shifted raw stream, and each output has its stamp |
| SampleClock.DriftBalance | lora.c:2199-2217 | symbols times drift is the accumulator plus the net shifts |
| SampleClock.DriftBounded | lora.c:2199-2217 | with drift of at most one input sample per symbol the accumulator never exceeds one |
| SampleClock.AlwaysBoundedIff | lora.c:2199-2217 | and only then |
| SampleClock.BoundaryMovesIff | lora.c:2199-2217 | a window boundary moves exactly when the drift so far less the moves so far exceeds one output sample, to the left or to the right by its sign |
| SampleClock.WindowOffGrid | lora.c:2243-2262 | a window start differs from the drifting grid by exactly the accumulator |
| SampleClock.WindowOnGrid | lora.c:2236-2265 | so it stays within one output sample of the grid |
| SampleClock.SyncSkipsAreSeparable | lora.c:1647-1799 | skips of the sync stage, made no later than the symbol that starts the drift, never fall on a tick that reuses a sample |
| SampleClock.Feed.Tick | lora.c:2197-2224 | the tail of a tick moves accumulator and next window start as the model does |
| SampleClock.Feed.Process | lora.c:2227-2267 | every buffer handed to the decoder is exactly its window of the input |
| SymbolPoints.PlainPickedIsIdealIff | lora.c:912-912 | without oversampling a point is right exactly when the boundary shifts are the rounded total drift |
| SymbolPoints.PickedIsIdealIff | lora.c:913-943 | with oversampling a point is right exactly when its index is in the window and no tie after an odd net shift went the other way, or when the clamp undoes that |
| SymbolPoints.RoundEvenIs | lora.c:937-937 | the fine shift is the nearest integer, the even one of two |
| SymbolPoints.PointsAre | lora.c:913-939 | points are one output sample apart from the middle of the first one, moved by the clamped phase |
| SymbolPoints.ClampOnlyAtEdges | lora.c:937-943 | only the first two and the last two points of a symbol can be clamped |
| SymbolPoints.PlainPointIsOff | lora.c:912-912 | drift 0.7 without oversampling: every point of the second symbol is off by one |
| SymbolPoints.ClampedPointIsOff | lora.c:937-943 | a point that is off because of the clamp alone |
| SymbolPoints.TiedPointIsOff | lora.c:930-939 | a run that reaches a tie after one boundary shift, and a point inside the window that is off |
| SymbolPoints.ClampUndoesTie | lora.c:937-943 | a clamped point that is right because of the clamp |
| Geofence.TransitionsAlternate | geofence.c:161-170 | changes of position alternate ENTRY, EXIT from ENTRY on and the last is the last position |
| Geofence.EventsAlternate | geofence.c:155-192 | over every run a tracked pair has exactly the events of its positions; an untracked one has none and was never tested or met a full table |
| Geofence.StaysTracked | geofence.c:60-74 | a tracked pair is never lost |
| GeofenceTable.FullIff | geofence.c:60-74 | the table is full exactly when as many pairs are tracked as it has slots |
| GeofenceTable.Geofencing.Search | geofence.c:62-72 | probing ends at the pair's slot, at an empty one when the pair has none, or after all slots |
| GeofenceTable.Geofencing.FindOrMake | geofence.c:60-74 | for any hash and size, succeeds exactly when the pair is tracked or there is room, and changes the map by at most this pair |
| GeofenceTable.Geofencing.Check | geofence.c:155-192 | a position check is the run of its tests, continues the run of all checks before it, and reports exactly the new events |
| GeofenceTable.Geofencing.ReportedAlternate | geofence.c:155-192 | over all position checks the events reported of a pair alternate from ENTRY on and are the transitions of its positions; a pair without a slot has none, and was never tested or the table is full |
| SnrHistory.StampedIsTrue | main.c:957-979 | for a clock that neither goes back nor reads zero every sample counts in its own bucket |
| SnrHistory.ReadsTrueIff | main.c:949-982 | for a clock that does not go back, exactly when sums and 16-bit counts of the window are those of the true histogram |
| SnrHistory.ZeroBucketMoves | main.c:957-959 | two samples for which they are not |
| SnrHistory.FullBucketWraps | main.c:980-981 | 65536 samples in one bucket, for which they are not |
| SnrHistory.History.Advance | main.c:971-976 | one bucket on, the oldest is forgotten and the newest empty |
| SnrHistory.History.MoveTo | main.c:960-979 | skipped buckets are empty, including the wipe of the whole ring |
| SnrHistory.History.Record | main.c:949-982 | keeps the ring equal to the histogram of the last 288 buckets |
| SnrHistory.History.ReadOut | main.c:1556-1567 | oldest first, sums and counts of the last 288 buckets ending at the newest sample |

## Left out

- SDR backends, the database, network sinks and JSON writers: device, SQL and socket plumbing.
- Decryption, the protobuf envelope and the recovery gates built on them: they rest on OpenSSL and on decoders outside this model.
- FFT, dechirping, preamble search, filter design and SNR estimation: floating-point signal processing; the strongest bin and the power of every bin are inputs here.
- The design of the filter taps and the growth of the buffers when a focused worker changes its slot.
- Packing of codewords and nibbles into machine bytes inside the decoder: codewords are bit sequences of their own length.
- Rounding of floats: the phasor, soft bits, filter sums, SNR sums and the drift accumulator are exact reals.
- Overflow of 64-bit counters and of the 32-bit queue capacity, and the length limits of file names.
- Spurious wakeups: a condition wait returns only after a signal, which is also what the code relies on.
- Liveness of `blocking_queue_close` and `active_callers_count`: the model has the closing signals but no claim that every caller returns.
- Dedup statistics counters, the straggler counter and the wall-clock time of first sight: they do not influence what is emitted.
- Dedup calls without metadata: every caller passes it.
- `point_in_polygon` and the polygon file: the geofence takes containment as a function of polygon and position.
- The janitor that prunes old snapshots, file names and the sidecar's contents: whether each library call succeeds is a parameter.
- The rounding of bucket averages for display, and the reset of a decoder between frames.
