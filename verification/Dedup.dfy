/**
 The dedup ring: replicas of one frame are folded into clusters, the best replica of
 a cluster wins, and a drainer emits clusters when their window is over
 (`dedup_buffer`, `dedup_drainer_thread`, `dedup_drainer_stop`).  A `Run` is the ring
 together with the history that the guarantees are about.
 */
module Dedup {
  import opened Arithmetic
  import opened Bits
  import opened Fingerprint

  const RING_SIZE := 512
  const WINDOW_US := 30000
  const SLOT_ADJACENCY_US := 500
  const SLOT_PROXIMITY := 3
  const TIER3_WINDOW_US := WINDOW_US
  const DRAIN_BATCH := 64
  const INT16_MAX := 32767
  const NO_SLOT := -32768

  // A decoded frame as it reaches `dedup_buffer`.
  datatype Replica = Replica(payload: seq<Byte>, hasCrc: bool, crcOk: bool, sf: int, bw: int, snr: real, user: int)

  datatype Entry = Entry(
    inUse: bool,
    fp: seq<bool>,
    sf: int,
    bw: int,
    emitAt: int,      // when the cluster opened, plus the window
    best: Replica,
    count: nat,       // replica_count
    minSlot: int,
    maxSlot: int
  )

  predicate Accepted(r: Replica) {
    14 <= |r.payload| <= 256
  }

  predicate CrcBad(r: Replica) {
    r.hasCrc && !r.crcOk
  }

  function Threshold(r: Replica): nat {
    if CrcBad(r) then 22 else 14
  }

  predicate SlotValid(r: Replica) {
    0 <= r.user < INT16_MAX
  }

  predicate SameRadio(e: Entry, r: Replica) {
    e.inUse && e.sf == r.sf && e.bw == r.bw
  }

  // The cluster opened at most `window` microseconds before `now`.
  predicate OpenedWithin(e: Entry, now: int, window: int) {
    var start := e.emitAt - WINDOW_US;
    now >= start && now - start <= window
  }

  predicate Tier1(e: Entry, r: Replica, fp: seq<bool>) {
    SameRadio(e, r) && |e.fp| == |fp| && Distance(e.fp, fp) <= Threshold(r)
  }

  predicate Tier2(e: Entry, r: Replica, now: int) {
    && SameRadio(e, r) && e.minSlot != NO_SLOT && OpenedWithin(e, now, SLOT_ADJACENCY_US)
    && e.minSlot - r.user <= SLOT_PROXIMITY && r.user - e.maxSlot <= SLOT_PROXIMITY
  }

  predicate Tier3(e: Entry, r: Replica, now: int) {
    SameRadio(e, r) && e.best.crcOk && OpenedWithin(e, now, TIER3_WINDOW_US)
  }

  // A CRC-fail cluster that a new CRC-pass cluster suppresses.
  predicate Suppressible(e: Entry, r: Replica, now: int) {
    SameRadio(e, r) && !e.best.crcOk && OpenedWithin(e, now, TIER3_WINDOW_US)
  }

  // The first index at or after `from` whose entry satisfies `p`, or the ring's length.
  function First(ring: seq<Entry>, p: Entry -> bool, from: nat): (i: nat)
    requires from <= |ring|
    ensures from <= i <= |ring|
    ensures i < |ring| ==> p(ring[i])
    ensures forall k :: from <= k < i ==> !p(ring[k])
  {
    var q := (k: nat) => k < |ring| && p(ring[k]);
    assert forall k: nat :: q(k) <==> k < |ring| && p(ring[k]);
    Least(q, from, |ring|)
  }

  // The cluster a replica is folded into: tier one, then two, then three.
  function Match(ring: seq<Entry>, r: Replica, now: int): (i: nat)
    ensures i <= |ring|
    ensures i < |ring| ==> SameRadio(ring[i], r)
  {
    var fp := FingerprintOf(r.payload);
    var one := First(ring, (e: Entry) => Tier1(e, r, fp), 0);
    if one < |ring| then one
    else
      var two := if SlotValid(r) then First(ring, (e: Entry) => Tier2(e, r, now), 0) else |ring|;
      if two < |ring| then two
      else if CrcBad(r) then First(ring, (e: Entry) => Tier3(e, r, now), 0)
      else |ring|
  }

  // The tournament: CRC-good beats CRC-bad, then the higher SNR wins; ties keep the incumbent.
  predicate Replaces(r: Replica, best: Replica) {
    if r.crcOk && !best.crcOk then true
    else if !r.crcOk && best.crcOk then false
    else r.snr > best.snr
  }

  function FoldIn(e: Entry, r: Replica): Entry {
    var won := if Replaces(r, e.best) then e.(best := r, fp := FingerprintOf(r.payload)) else e;
    var counted := won.(count := e.count + 1);
    if !SlotValid(r) then counted
    else counted.(minSlot := if e.minSlot == NO_SLOT || r.user < e.minSlot then r.user else e.minSlot,
                  maxSlot := if e.maxSlot == NO_SLOT || r.user > e.maxSlot then r.user else e.maxSlot)
  }

  function Opened(r: Replica, now: int): Entry {
    var slot := if SlotValid(r) then r.user else NO_SLOT;
    Entry(true, FingerprintOf(r.payload), r.sf, r.bw, now + WINDOW_US, r, 1, slot, slot)
  }

  // ---- Runs ----

  // An emitted or suppressed cluster, with the arrivals folded into it.
  datatype Cluster = Cluster(entry: Entry, members: seq<nat>)

  datatype Run = Run(
    ring: seq<Entry>,
    members: seq<seq<nat>>,     // the arrivals folded into each live cluster
    arrivals: seq<Replica>,     // every accepted replica, in order; an arrival is its index here
    emitted: seq<Cluster>,
    suppressed: seq<Cluster>,
    dropped: seq<nat>           // arrivals that found the ring full
  )

  datatype Action = Arrive(replica: Replica, at: int) | Drain(at: int) | Flush

  predicate ValidShape(s: Run) {
    |s.members| == |s.ring|
  }

  function FoldAt(s: Run, i: nat, r: Replica, id: nat): Run
    requires ValidShape(s) && i < |s.ring|
  {
    s.(ring := s.ring[i := FoldIn(s.ring[i], r)], members := s.members[i := s.members[i] + [id]])
  }

  function OpenAt(s: Run, i: nat, r: Replica, now: int, id: nat): Run
    requires ValidShape(s) && i < |s.ring|
  {
    s.(ring := s.ring[i := Opened(r, now)], members := s.members[i := [id]])
  }

  // Take cluster i out of the ring.
  function Freed(s: Run, i: nat): Run
    requires ValidShape(s) && i < |s.ring|
  {
    s.(ring := s.ring[i := s.ring[i].(inUse := false)], members := s.members[i := []])
  }

  function EmitAt(s: Run, i: nat): Run
    requires ValidShape(s) && i < |s.ring|
  {
    Freed(s, i).(emitted := s.emitted + [Cluster(s.ring[i], s.members[i])])
  }

  function SuppressAt(s: Run, i: nat): Run
    requires ValidShape(s) && i < |s.ring|
  {
    Freed(s, i).(suppressed := s.suppressed + [Cluster(s.ring[i], s.members[i])])
  }

  function SuppressFrom(s: Run, r: Replica, now: int, i: nat): (t: Run)
    requires ValidShape(s) && i <= |s.ring|
    ensures ValidShape(t) && |t.ring| == |s.ring|
    ensures forall k :: 0 <= k < |s.ring| && !s.ring[k].inUse ==> t.ring[k] == s.ring[k] && t.members[k] == s.members[k]
    decreases |s.ring| - i
  {
    if i == |s.ring| then s
    else SuppressFrom(if Suppressible(s.ring[i], r, now) then SuppressAt(s, i) else s, r, now, i + 1)
  }

  function DoArrive(s: Run, r: Replica, now: int): Run
    requires ValidShape(s)
  {
    if !Accepted(r) then s
    else
      var id := |s.arrivals|;
      var a := s.(arrivals := s.arrivals + [r]);
      var i := Match(s.ring, r, now);
      var slot := First(s.ring, (e: Entry) => !e.inUse, 0);
      if i < |s.ring| then FoldAt(a, i, r, id)
      else if slot < |s.ring| then
        OpenAt(if CrcBad(r) then a else SuppressFrom(a, r, now, 0), slot, r, now, id)
      else a.(dropped := s.dropped + [id])
  }

  // One drainer tick: at most DRAIN_BATCH expired clusters, in ring order.
  function DrainFrom(s: Run, now: int, i: nat, n: nat): (t: Run)
    requires ValidShape(s) && i <= |s.ring|
    decreases |s.ring| - i
  {
    if i == |s.ring| || n == DRAIN_BATCH then s
    else if s.ring[i].inUse && now >= s.ring[i].emitAt then DrainFrom(EmitAt(s, i), now, i + 1, n + 1)
    else DrainFrom(s, now, i + 1, n)
  }

  // The sweep at shutdown: everything.
  function FlushFrom(s: Run, i: nat): (t: Run)
    requires ValidShape(s) && i <= |s.ring|
    decreases |s.ring| - i
  {
    if i == |s.ring| then s
    else FlushFrom(if s.ring[i].inUse then EmitAt(s, i) else s, i + 1)
  }

  function Do(s: Run, a: Action): Run
    requires ValidShape(s)
  {
    match a
    case Arrive(r, now) => DoArrive(s, r, now)
    case Drain(now) => DrainFrom(s, now, 0, 0)
    case Flush => FlushFrom(s, 0)
  }
}
