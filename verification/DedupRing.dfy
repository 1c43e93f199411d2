/**
 The dedup ring as it is updated in place, each operation proved to take the step of
 `Dedup` that the whole-run guarantees are about.
 */
module DedupRing {
  import opened Bits
  import opened Fingerprint
  import opened Dedup
  import R = DedupRuns

  const EMPTY := Entry(false, [], 0, 0, 0, Replica([], false, false, 0, 0, 0.0, -1), 0, NO_SLOT, NO_SLOT)

  function Entries(cs: seq<Cluster>): (es: seq<Entry>)
    ensures |es| == |cs|
  {
    seq(|cs|, i requires 0 <= i < |cs| => cs[i].entry)
  }

  class DedupRing {
    const ring: array<Entry>
    ghost var run: Run

    ghost predicate Valid()
      reads this, ring
    {
      ring.Length == RING_SIZE && ring[..] == run.ring && ValidShape(run)
    }

    constructor ()
      ensures Valid() && fresh(ring) && R.Idle(ring[..]) && run == R.Start(ring[..])
    {
      ring := new Entry[RING_SIZE](_ => EMPTY);
      new;
      run := R.Start(ring[..]);
    }

    // A scan of the ring for the first entry that satisfies p.
    method ScanFor(p: Entry -> bool) returns (i: nat)
      ensures i == First(ring[..], p, 0)
    {
      i := 0;
      while i < ring.Length && !p(ring[i])
        invariant i <= ring.Length && First(ring[..], p, 0) == First(ring[..], p, i)
      {
        i := i + 1;
      }
    }

    method FindMatch(r: Replica, fp: seq<bool>, now: int) returns (i: nat)
      requires fp == FingerprintOf(r.payload)
      ensures i == Match(ring[..], r, now)
    {
      i := ScanFor((e: Entry) => Tier1(e, r, fp));
      if i == ring.Length && SlotValid(r) {
        i := ScanFor((e: Entry) => Tier2(e, r, now));
      }
      if i == ring.Length && CrcBad(r) {
        i := ScanFor((e: Entry) => Tier3(e, r, now));
      }
    }

    method Suppress(r: Replica, now: int)
      requires Valid()
      modifies ring, `run
      ensures Valid() && run == SuppressFrom(old(run), r, now, 0)
    {
      for i := 0 to ring.Length
        invariant Valid() && SuppressFrom(run, r, now, i) == SuppressFrom(old(run), r, now, 0)
      {
        if Suppressible(ring[i], r, now) {
          run := SuppressAt(run, i);
          ring[i] := ring[i].(inUse := false);
        }
      }
    }

    method Fold(i: nat, r: Replica, ghost id: nat)
      requires Valid() && i < ring.Length
      modifies ring, `run
      ensures Valid() && run == FoldAt(old(run), i, r, id)
    {
      run := FoldAt(run, i, r, id);
      ring[i] := FoldIn(ring[i], r);
    }

    method Open(slot: nat, r: Replica, now: int, ghost id: nat)
      requires Valid() && slot < ring.Length
      modifies ring, `run
      ensures Valid() && run == OpenAt(old(run), slot, r, now, id)
    {
      run := OpenAt(run, slot, r, now, id);
      ring[slot] := Opened(r, now);
    }

    // dedup_buffer
    method Buffer(r: Replica, now: int)
      requires Valid()
      modifies ring, `run
      ensures Valid() && run == DoArrive(old(run), r, now)
    {
      if |r.payload| < 14 || |r.payload| > 256 {
        return;
      }
      var fp := ComputeFingerprint(r.payload);
      var i := FindMatch(r, fp, now);
      var slot := ScanFor((e: Entry) => !e.inUse);
      ghost var id := |run.arrivals|;
      run := R.Logged(run, r);
      if i < ring.Length {
        Fold(i, r, id);
      } else if slot < ring.Length {
        if !CrcBad(r) {
          Suppress(r, now);
        }
        Open(slot, r, now, id);
      } else {
        run := run.(dropped := run.dropped + [id]);
      }
    }

    // Copy entry i out and free it.
    method Emit(i: nat) returns (e: Entry)
      requires Valid() && i < ring.Length
      modifies ring, `run
      ensures Valid() && run == EmitAt(old(run), i) && e == old(ring[i])
      ensures Entries(run.emitted) == Entries(old(run).emitted) + [e]
    {
      e := ring[i];
      run := EmitAt(run, i);
      ring[i] := ring[i].(inUse := false);
    }

    // One tick of dedup_drainer_thread; the batch is emitted outside the lock.
    method Drain(now: int) returns (batch: seq<Entry>)
      requires Valid()
      modifies ring, `run
      ensures Valid() && run == DrainFrom(old(run), now, 0, 0)
      ensures |batch| <= DRAIN_BATCH && Entries(run.emitted) == Entries(old(run).emitted) + batch
    {
      batch := [];
      var i := 0;
      while i < ring.Length && |batch| < DRAIN_BATCH
        invariant Valid() && i <= ring.Length && |batch| <= DRAIN_BATCH
        invariant DrainFrom(run, now, i, |batch|) == DrainFrom(old(run), now, 0, 0)
        invariant Entries(run.emitted) == Entries(old(run).emitted) + batch
      {
        if ring[i].inUse && now >= ring[i].emitAt {
          var e := Emit(i);
          batch := batch + [e];
        }
        i := i + 1;
      }
    }

    // The sweep of dedup_drainer_stop.
    method Stop() returns (batch: seq<Entry>)
      requires Valid()
      modifies ring, `run
      ensures Valid() && run == FlushFrom(old(run), 0)
      ensures Entries(run.emitted) == Entries(old(run).emitted) + batch
    {
      batch := [];
      for i := 0 to ring.Length
        invariant Valid() && FlushFrom(run, i) == FlushFrom(old(run), 0)
        invariant Entries(run.emitted) == Entries(old(run).emitted) + batch
      {
        if ring[i].inUse {
          var e := Emit(i);
          batch := batch + [e];
        }
      }
    }
  }
}
