/**
 The ring of raw IQ samples that snapshots are cut from (iq_ring.c): a wrapped buffer
 that stands for the newest part of an append-only log.
 */
module IqRing {
  import opened Arithmetic

  // The index of the oldest sample still in a ring that has seen `total` samples.
  function Oldest(total: nat, capacity: nat): nat {
    if total > capacity then total - capacity else 0
  }

  // The part of [start, start + n) that is still in the ring.
  function Clipped<T>(log: seq<T>, capacity: nat, start: nat, n: nat): (r: seq<T>)
    ensures |r| <= n
  {
    var lo, hi := Max(start, Oldest(|log|, capacity)), Min(start + n, |log|);
    if lo < hi then log[lo..hi] else []
  }

  // Where sample `base + k` is stored.
  function Wrapped(base: nat, k: nat, capacity: nat): nat
    requires capacity > 0
  {
    var pos := base % capacity;
    if pos + k < capacity then pos + k else pos + k - capacity
  }

  lemma WrappedIsSlot(base: nat, k: nat, capacity: nat)
    requires k <= capacity && capacity > 0
    ensures (base + k) % capacity == Wrapped(base, k, capacity)
  {
    var q, pos := base / capacity, base % capacity;
    if pos + k < capacity {
      DivModIs(base + k, capacity, q, pos + k);
    } else {
      DivModIs(base + k, capacity, q + 1, pos + k - capacity);
    }
  }

  class IqRing<T(0)> {
    const capacity: nat
    const data: array<T>
    var totalWritten: nat
    ghost var log: seq<T>

    ghost predicate Valid()
      reads this, data
    {
      && 0 < capacity == data.Length && totalWritten == |log|
      && (forall i :: Oldest(|log|, capacity) <= i < |log| ==> data[i % capacity] == log[i])
    }

    constructor (capacitySamples: nat)
      requires capacitySamples > 0
      ensures Valid() && fresh(data) && capacity == capacitySamples && log == []
    {
      capacity := capacitySamples;
      data := new T[capacitySamples];
      totalWritten := 0;
      log := [];
    }

    // The two copies of an append: up to the end of the buffer, then from its start.
    method Store(pos: nat, src: seq<T>)
      requires 0 < capacity == data.Length && pos < capacity && |src| <= capacity
      modifies data
      ensures forall k :: 0 <= k < |src| ==> data[if pos + k < capacity then pos + k else pos + k - capacity] == src[k]
      ensures forall s :: 0 <= s < pos && pos + |src| - capacity <= s ==> data[s] == old(data[s])
      ensures forall s :: pos + |src| <= s < capacity ==> data[s] == old(data[s])
    {
      var firstChunk := Min(capacity - pos, |src|);
      forall k | 0 <= k < firstChunk {
        data[pos + k] := src[k];
      }
      forall k | 0 <= k < |src| - firstChunk {
        data[k] := src[firstChunk + k];
      }
    }

    // Any batch, also one larger than the ring, extends the log.
    method Append(samples: seq<T>) returns (startIdx: nat)
      requires Valid()
      modifies data, `totalWritten, `log
      ensures Valid() && log == old(log) + samples && startIdx == old(totalWritten)
    {
      startIdx := totalWritten;
      if |samples| == 0 {
        assert log + samples == log;
        return;
      }
      var srcSkip := if |samples| > capacity then |samples| - capacity else 0;
      var storeFirst := startIdx + srcSkip;
      ghost var before, was := log, data[..];
      assert forall i :: Oldest(|before|, capacity) <= i < |before| ==> was[i % capacity] == before[i];
      Store(storeFirst % capacity, samples[srcSkip..]);
      totalWritten := totalWritten + |samples|;
      log := log + samples;
      forall i | Oldest(|log|, capacity) <= i < |log| ensures data[i % capacity] == log[i] {
        if i >= storeFirst {
          WrappedIsSlot(storeFirst, i - storeFirst, capacity);
          assert log[i] == samples[srcSkip..][i - storeFirst];
        } else {
          WrappedIsSlot(i, storeFirst - i, capacity);
          assert data[i % capacity] == was[i % capacity] == before[i];
        }
      }
    }

    // The two copies of a read: up to the end of the buffer, then from its start.
    method Fetch(from: nat, copy: nat) returns (out: seq<T>)
      requires Valid() && Oldest(|log|, capacity) <= from && from + copy <= |log|
      ensures out == log[from..from + copy]
    {
      var pos := from % capacity;
      var firstChunk := Min(capacity - pos, copy);
      out := data[pos..pos + firstChunk] + data[..copy - firstChunk];
      forall k | 0 <= k < copy ensures out[k] == log[from + k] {
        WrappedIsSlot(from, k, capacity);
        assert data[(from + k) % capacity] == log[from + k];
      }
    }

    // Exactly the log, clipped to what has been written and has not aged out.
    method GetWindow(start: nat, n: nat) returns (out: seq<T>)
      requires Valid()
      ensures out == Clipped(log, capacity, start, n)
      ensures n > 0 ==> (|out| == n <==> Oldest(|log|, capacity) <= start && start + n <= |log|)
      ensures |out| == n ==> n == 0 || out == log[start..start + n]
    {
      var oldest := Oldest(totalWritten, capacity);
      var end := Min(start + n, totalWritten);
      var from := Max(start, oldest);
      if end <= from {
        return [];
      }
      out := Fetch(from, end - from);
    }

    method LiveRange() returns (oldest: nat, newestPlusOne: nat)
      requires Valid()
      ensures oldest == Oldest(|log|, capacity) && newestPlusOne == |log|
    {
      oldest, newestPlusOne := Oldest(totalWritten, capacity), totalWritten;
    }
  }
}
