/**
 The per-channel SNR history ring (main.c): one bucket per five minutes, advanced in
 place as samples arrive, read out oldest first.
 */
module SnrHistory {
  import opened Arithmetic

  const BUCKETS := 288
  const UINT16 := 65536

  // A trusted frame's SNR, in a bucket of wall-clock time.
  datatype Sample = Sample(bucket: nat, snr: real)

  // The histogram: sum and number of samples in bucket b.
  function SumAt(s: seq<Sample>, b: int): real {
    if s == [] then 0.0
    else SumAt(s[..|s| - 1], b) + if s[|s| - 1].bucket == b then s[|s| - 1].snr else 0.0
  }

  function CountAt(s: seq<Sample>, b: int): nat {
    if s == [] then 0
    else CountAt(s[..|s| - 1], b) + if s[|s| - 1].bucket == b then 1 else 0
  }

  lemma HistogramAppend(s: seq<Sample>, x: Sample, b: int)
    ensures SumAt(s + [x], b) == SumAt(s, b) + if x.bucket == b then x.snr else 0.0
    ensures CountAt(s + [x], b) == CountAt(s, b) + if x.bucket == b then 1 else 0
  {
    assert (s + [x])[..|s|] == s;
  }

  lemma {:induction false} HistogramEmpty(s: seq<Sample>, b: int)
    requires forall i :: 0 <= i < |s| ==> s[i].bucket != b
    ensures SumAt(s, b) == 0.0 && CountAt(s, b) == 0
  {
    if s != [] {
      HistogramEmpty(s[..|s| - 1], b);
    }
  }

  // ---- The bucket each sample is counted in ----

  // The newest bucket so far, zero before the first sample.
  function Newest(s: seq<Sample>): nat {
    if s == [] then 0 else Max(Newest(s[..|s| - 1]), s[|s| - 1].bucket)
  }

  function Restamped(s: seq<Sample>, b: nat): (r: seq<Sample>)
    ensures |r| == |s|
  {
    seq(|s|, i requires 0 <= i < |s| => Sample(b, s[i].snr))
  }

  // A sample from a clock that went back counts in the newest bucket; and because bucket
  // zero also means "no sample yet", samples there move to the first later bucket.
  function Stamped(s: seq<Sample>): (r: seq<Sample>)
    ensures |r| == |s|
  {
    if s == [] then []
    else
      var before, x := s[..|s| - 1], s[|s| - 1];
      var earlier := if Newest(before) == 0 then Restamped(Stamped(before), x.bucket) else Stamped(before);
      earlier + [Sample(Max(Newest(before), x.bucket), x.snr)]
  }

  lemma StampedAppend(s: seq<Sample>, x: Sample)
    ensures Newest(s + [x]) == Max(Newest(s), x.bucket)
    ensures var earlier := if Newest(s) == 0 then Restamped(Stamped(s), x.bucket) else Stamped(s);
      Stamped(s + [x]) == earlier + [Sample(Max(Newest(s), x.bucket), x.snr)]
  {
    assert (s + [x])[..|s|] == s;
  }

  lemma {:induction false} StampedBound(s: seq<Sample>)
    ensures forall i :: 0 <= i < |s| ==> Stamped(s)[i].bucket <= Newest(s)
  {
    if s != [] {
      StampedBound(s[..|s| - 1]);
    }
  }

  predicate Nondecreasing(s: seq<Sample>) {
    forall i, j :: 0 <= i < j < |s| ==> s[i].bucket <= s[j].bucket
  }

  lemma {:induction false} NewestIsLast(s: seq<Sample>)
    requires Nondecreasing(s) && s != []
    ensures Newest(s) == s[|s| - 1].bucket
  {
    if |s| > 1 {
      NewestIsLast(s[..|s| - 1]);
    }
  }

  // ---- The ring ----

  // Where the bucket that is `age` buckets older than the newest is kept.
  function Slot(head: nat, age: nat): (i: nat)
    requires head < BUCKETS && age < BUCKETS
    ensures i < BUCKETS
  {
    if head >= age then head - age else head + BUCKETS - age
  }

  // What a slot keeps of bucket b.
  predicate Holds(sum: real, count: nat, s: seq<Sample>, b: int) {
    sum == SumAt(s, b) && count == CountAt(s, b) % UINT16
  }

  lemma HoldsNone(s: seq<Sample>, b: int)
    requires forall i :: 0 <= i < |s| ==> s[i].bucket < b
    ensures Holds(0.0, 0, s, b)
  {
    HistogramEmpty(s, b);
  }

  lemma HoldsAppend(sum: real, count: nat, s: seq<Sample>, x: Sample)
    requires Holds(sum, count, s, x.bucket)
    ensures Holds(sum + x.snr, (count + 1) % UINT16, s + [x], x.bucket)
  {
    HistogramAppend(s, x, x.bucket);
  }

  lemma HoldsOther(sum: real, count: nat, s: seq<Sample>, x: Sample, b: int)
    requires Holds(sum, count, s, b) && x.bucket != b
    ensures Holds(sum, count, s + [x], b)
  {
    HistogramAppend(s, x, b);
  }

  lemma HoldsRestamped(sum: real, count: nat, s: seq<Sample>, age: nat, to: nat)
    requires Holds(sum, count, s, 0 - age) && forall i :: 0 <= i < |s| ==> s[i].bucket == 0
    ensures Holds(sum, count, Restamped(s, to), to - age)
  {
    RestampedHistogram(s, 0, to, age);
  }

  class History {
    const sum: array<real>
    const count: array<nat>     // uint16
    var head: nat
    var last: nat
    ghost var samples: seq<Sample>

    // The ring is the histogram of s over the BUCKETS buckets that end with `newest`.
    ghost predicate Shows(s: seq<Sample>, newest: nat)
      reads this, sum, count
    {
      && sum.Length == BUCKETS && count.Length == BUCKETS && head < BUCKETS
      && (forall age {:trigger Slot(head, age)} :: 0 <= age < BUCKETS ==>
        Holds(sum[Slot(head, age)], count[Slot(head, age)], s, newest - age))
    }

    ghost predicate Valid()
      reads this, sum, count
    {
      Shows(Stamped(samples), last) && last == Newest(samples)
    }

    constructor ()
      ensures Valid() && fresh(sum) && fresh(count) && samples == []
    {
      sum := new real[BUCKETS](_ => 0.0);
      count := new nat[BUCKETS](_ => 0);
      head, last, samples := 0, 0, [];
    }

    // One bucket on, with the new head cleared.
    method Advance(ghost s: seq<Sample>, ghost newest: nat)
      requires Shows(s, newest) && forall i :: 0 <= i < |s| ==> s[i].bucket <= newest
      modifies sum, count, `head
      ensures Shows(s, newest + 1)
    {
      ghost var head0 := head;
      head := (head + 1) % BUCKETS;
      sum[head] := 0.0;
      count[head] := 0;
      HoldsNone(s, newest + 1);
      forall age | 0 <= age < BUCKETS
        ensures Holds(sum[Slot(head, age)], count[Slot(head, age)], s, newest + 1 - age)
      {
        assert age > 0 ==> Slot(head, age) == Slot(head0, age - 1) != head;
      }
    }

    method Wipe(ghost s: seq<Sample>, ghost newest: nat, now: nat)
      requires Shows(s, newest) && (forall i :: 0 <= i < |s| ==> s[i].bucket <= newest) && now >= newest + BUCKETS
      modifies sum, count, `head
      ensures Shows(s, now)
    {
      forall i | 0 <= i < BUCKETS {
        sum[i] := 0.0;
      }
      forall i | 0 <= i < BUCKETS {
        count[i] := 0;
      }
      head := 0;
      forall age | 0 <= age < BUCKETS
        ensures Holds(sum[Slot(head, age)], count[Slot(head, age)], s, now - age)
      {
        HoldsNone(s, now - age);
      }
    }

    // Elapsed buckets are cleared, so that gaps in traffic show as gaps.
    method MoveTo(now: nat, ghost s: seq<Sample>)
      requires Shows(s, last) && (forall i :: 0 <= i < |s| ==> s[i].bucket <= last) && now > last
      modifies sum, count, `head, `last
      ensures Shows(s, now) && last == now
    {
      var skipped := now - last;
      if skipped >= BUCKETS {
        Wipe(s, last, now);
      } else {
        for k := 0 to skipped
          invariant Shows(s, last + k) && last + skipped == now
        {
          Advance(s, last + k);
        }
      }
      last := now;
    }

    method Add(snr: real, ghost s: seq<Sample>, ghost newest: nat)
      requires Shows(s, newest)
      modifies sum, count
      ensures Shows(s + [Sample(newest, snr)], newest)
    {
      ghost var x, sum0, count0 := Sample(newest, snr), sum[..], count[..];
      assert Slot(head, 0) == head;
      HoldsAppend(sum[head], count[head], s, x);
      sum[head] := sum[head] + snr;
      count[head] := (count[head] + 1) % UINT16;
      forall age | 0 <= age < BUCKETS
        ensures Holds(sum[Slot(head, age)], count[Slot(head, age)], s + [x], newest - age)
      {
        if age > 0 {
          HoldsOther(sum0[Slot(head, age)], count0[Slot(head, age)], s, x, newest - age);
        }
      }
    }

    // Samples in bucket zero become samples in bucket `now`.
    ghost method Restamp(now: nat, s: seq<Sample>)
      requires Shows(s, 0) && forall i :: 0 <= i < |s| ==> s[i].bucket == 0
      ensures Shows(Restamped(s, now), now)
    {
      forall age | 0 <= age < BUCKETS
        ensures Holds(sum[Slot(head, age)], count[Slot(head, age)], Restamped(s, now), now - age)
      {
        HoldsRestamped(sum[Slot(head, age)], count[Slot(head, age)], s, age, now);
      }
    }

    // Bring the ring to the sample's bucket.
    method Align(now: nat, ghost s: seq<Sample>) returns (ghost aligned: seq<Sample>)
      requires Shows(s, last) && forall i :: 0 <= i < |s| ==> s[i].bucket <= last
      modifies sum, count, `head, `last
      ensures last == Max(old(last), now) && Shows(aligned, last)
      ensures aligned == if old(last) == 0 then Restamped(s, now) else s
    {
      aligned := if last == 0 then Restamped(s, now) else s;
      if last == 0 {
        Restamp(now, s);
        last := now;
      } else if now > last {
        MoveTo(now, s);
      }
    }

    method Record(now: nat, snr: real)
      requires Valid()
      modifies sum, count, `head, `last, `samples
      ensures Valid() && samples == old(samples) + [Sample(now, snr)]
    {
      ghost var s := Stamped(samples);
      StampedBound(samples);
      ghost var aligned := Align(now, s);
      Add(snr, aligned, last);
      StampedAppend(samples, Sample(now, snr));
      samples := samples + [Sample(now, snr)];
    }

    // Oldest first: the histogram of the last BUCKETS buckets, empty where there was nothing.
    method ReadOut() returns (sums: seq<real>, counts: seq<nat>)
      requires Valid()
      ensures |sums| == |counts| == BUCKETS
      ensures forall k :: 0 <= k < BUCKETS ==> (
        && sums[k] == SumAt(Stamped(samples), Newest(samples) - (BUCKETS - 1) + k)
        && counts[k] == CountAt(Stamped(samples), Newest(samples) - (BUCKETS - 1) + k) % UINT16)
    {
      sums, counts := [], [];
      for k := 0 to BUCKETS
        invariant |sums| == |counts| == k
        invariant forall j :: 0 <= j < k ==>
          sums[j] == sum[Slot(head, BUCKETS - 1 - j)] && counts[j] == count[Slot(head, BUCKETS - 1 - j)]
      {
        var idx := (head + 1 + k) % BUCKETS;
        assert idx == Slot(head, BUCKETS - 1 - k);
        sums, counts := sums + [sum[idx]], counts + [count[idx]];
      }
      forall k | 0 <= k < BUCKETS
        ensures sums[k] == SumAt(Stamped(samples), last - (BUCKETS - 1) + k)
        ensures counts[k] == CountAt(Stamped(samples), last - (BUCKETS - 1) + k) % UINT16
      {
        var age := BUCKETS - 1 - k;
        assert Holds(sum[Slot(head, age)], count[Slot(head, age)], Stamped(samples), last - age);
      }
    }
  }

  lemma {:induction false} RestampedHistogram(s: seq<Sample>, bucket: nat, to: nat, age: int)
    requires forall i :: 0 <= i < |s| ==> s[i].bucket == bucket
    ensures SumAt(Restamped(s, to), to - age) == SumAt(s, bucket - age)
    ensures CountAt(Restamped(s, to), to - age) == CountAt(s, bucket - age)
  {
    if s != [] {
      var n := |s| - 1;
      assert Restamped(s, to)[..n] == Restamped(s[..n], to);
      RestampedHistogram(s[..n], bucket, to, age);
    }
  }

  // ---- Exactly when the read-out is the true histogram ----

  function LeadingZeros(s: seq<Sample>): (z: nat)
    ensures z <= |s| && (forall i :: 0 <= i < z ==> s[i].bucket == 0) && (z < |s| ==> s[z].bucket > 0)
  {
    if s == [] || s[0].bucket > 0 then 0 else 1 + LeadingZeros(s[1..])
  }

  // Samples in bucket zero, then others: the former are counted with the first of the latter.
  function Merged(zeros: seq<Sample>, rest: seq<Sample>): seq<Sample> {
    if rest == [] then zeros else Restamped(zeros, rest[0].bucket) + rest
  }

  predicate AllZero(s: seq<Sample>) {
    forall i :: 0 <= i < |s| ==> s[i].bucket == 0
  }

  lemma {:induction false} StampedZeros(s: seq<Sample>)
    requires AllZero(s)
    ensures Stamped(s) == s && Newest(s) == 0
  {
    if s != [] {
      var before := s[..|s| - 1];
      StampedZeros(before);
      assert Restamped(before, 0) == before;
    }
  }

  // A run s that starts with the samples `zeros` in bucket zero is counted like this.
  predicate Formed(s: seq<Sample>, zeros: seq<Sample>, rest: seq<Sample>) {
    Stamped(s) == Merged(zeros, rest) && Newest(s) == Newest(rest)
  }

  lemma {:induction false} StampedForm(s: seq<Sample>, zeros: seq<Sample>, rest: seq<Sample>)
    requires s == zeros + rest && AllZero(zeros) && Nondecreasing(rest) && (rest == [] || rest[0].bucket > 0)
    ensures Formed(s, zeros, rest)
    decreases |s|
  {
    if rest == [] {
      assert s == zeros;
      StampedZeros(zeros);
    } else {
      StampedForm(s[..|s| - 1], zeros, rest[..|rest| - 1]);
      FormStep(s, zeros, rest);
    }
  }

  lemma FormStep(s: seq<Sample>, zeros: seq<Sample>, rest: seq<Sample>)
    requires rest != [] && Nondecreasing(rest) && rest[0].bucket > 0
    requires s != [] && s[|s| - 1] == rest[|rest| - 1] && Formed(s[..|s| - 1], zeros, rest[..|rest| - 1])
    ensures Formed(s, zeros, rest)
  {
    var n := |rest| - 1;
    NewestIsLast(rest);
    if n > 0 {
      NewestIsLast(rest[..n]);
      assert Merged(zeros, rest) == Merged(zeros, rest[..n]) + [rest[n]];
    } else {
      assert Merged(zeros, rest) == Restamped(zeros, rest[0].bucket) + [rest[0]];
    }
  }

  lemma {:induction false} CountConcat(a: seq<Sample>, c: seq<Sample>, b: int)
    ensures SumAt(a + c, b) == SumAt(a, b) + SumAt(c, b) && CountAt(a + c, b) == CountAt(a, b) + CountAt(c, b)
  {
    if c == [] {
      assert a + c == a;
    } else {
      assert (a + c)[..|a + c| - 1] == a + c[..|c| - 1];
      CountConcat(a, c[..|c| - 1], b);
    }
  }

  lemma {:induction false} CountAll(s: seq<Sample>, b: nat)
    requires forall i :: 0 <= i < |s| ==> s[i].bucket == b
    ensures CountAt(s, b) == |s|
  {
    if s != [] {
      CountAll(s[..|s| - 1], b);
    }
  }

  // The slot of bucket b holds its true sum and count.
  predicate SameBucket(s: seq<Sample>, b: int) {
    Holds(SumAt(s, b), CountAt(s, b), Stamped(s), b)
  }

  // Every bucket of the window that is read out shows what was sampled in it.
  ghost predicate ReadsTrue(s: seq<Sample>) {
    forall b: int :: Newest(s) - BUCKETS < b <= Newest(s) ==> SameBucket(s, b)
  }

  // No count of the window wraps.
  ghost predicate NoWrap(s: seq<Sample>) {
    forall b: int :: Newest(s) - BUCKETS < b <= Newest(s) ==> CountAt(s, b) < UINT16
  }

  // The samples of bucket zero are counted elsewhere, and it shows.
  predicate ZerosShow(s: seq<Sample>) {
    var z := LeadingZeros(s);
    && 0 < z < |s| && s[z].bucket > Newest(s) - BUCKETS
    && !(Newest(s) >= BUCKETS && z % UINT16 == 0 && SumAt(s, 0) == 0.0)
  }

  // For a clock that does not go back and never reads zero, every sample counts in its
  // own bucket.
  lemma StampedIsTrue(s: seq<Sample>)
    requires Nondecreasing(s) && (s == [] || s[0].bucket > 0)
    ensures Stamped(s) == s
  {
    StampedForm(s, [], s);
  }

  // A clock that never goes back reads true exactly when no count of the window wraps
  // and samples in bucket zero do not show: there are none, or nothing else, or the
  // first later bucket has left the window, or they are a multiple of 65536 in number
  // that sum to zero and bucket zero has left the window.
  lemma ReadsTrueIff(s: seq<Sample>)
    requires Nondecreasing(s)
    ensures ReadsTrue(s) <==> NoWrap(s) && !ZerosShow(s)
  {
    var z := LeadingZeros(s);
    SplitReadsTrue(s, s[..z], s[z..]);
  }

  lemma SplitReadsTrue(s: seq<Sample>, zeros: seq<Sample>, rest: seq<Sample>)
    requires s == zeros + rest && AllZero(zeros) && Nondecreasing(rest) && (rest == [] || rest[0].bucket > 0)
    requires |zeros| == LeadingZeros(s)
    ensures ReadsTrue(s) <==> NoWrap(s) && !ZerosShow(s)
  {
    StampedForm(s, zeros, rest);
    if zeros == [] || rest == [] {
      assert Merged(zeros, rest) == s;
      UnmovedReadsTrue(s);
    } else {
      MergedReadsTrue(s, zeros, rest);
    }
  }

  // Two samples, one in bucket zero: the read-out counts both in bucket one.
  lemma ZeroBucketMoves()
    ensures Nondecreasing([Sample(0, 10.0), Sample(1, 20.0)]) && !ReadsTrue([Sample(0, 10.0), Sample(1, 20.0)])
  {
    var s := [Sample(0, 10.0), Sample(1, 20.0)];
    assert LeadingZeros(s) == 1;
    NewestIsLast(s);
    ReadsTrueIff(s);
  }

  // 65536 samples in one bucket: the read-out shows an empty one.
  lemma FullBucketWraps(snr: real)
    ensures var s := seq(UINT16, _ => Sample(1, snr)); Nondecreasing(s) && !ReadsTrue(s)
  {
    var s := seq(UINT16, _ => Sample(1, snr));
    NewestIsLast(s);
    CountAll(s, 1);
    ReadsTrueIff(s);
  }

  lemma UnmovedReadsTrue(s: seq<Sample>)
    requires Stamped(s) == s
    ensures ReadsTrue(s) <==> NoWrap(s)
  {
    forall b: int
      ensures SameBucket(s, b) <==> CountAt(s, b) < UINT16
    {
      UnmovedBucket(s, b);
    }
  }

  lemma UnmovedBucket(s: seq<Sample>, b: int)
    requires SumAt(Stamped(s), b) == SumAt(s, b) && CountAt(Stamped(s), b) == CountAt(s, b)
    ensures SameBucket(s, b) <==> CountAt(s, b) < UINT16
  {}

  lemma MergedReadsTrue(s: seq<Sample>, zeros: seq<Sample>, rest: seq<Sample>)
    requires s == zeros + rest && zeros != [] && AllZero(zeros) && |zeros| == LeadingZeros(s)
    requires rest != [] && Nondecreasing(rest) && rest[0].bucket > 0 && Formed(s, zeros, rest)
    ensures ReadsTrue(s) <==> NoWrap(s) && !ZerosShow(s)
  {
    NewestIsLast(rest);
    MovedTo(s, zeros, rest);
    MovedAway(s, zeros, rest);
    forall b: int
      ensures b != 0 && b != rest[0].bucket ==> (SameBucket(s, b) <==> CountAt(s, b) < UINT16)
    {
      if b != 0 && b != rest[0].bucket {
        MovedFrom(s, zeros, rest, b);
      }
    }
    assert s[LeadingZeros(s)] == rest[0];
  }

  // Adding a multiple of the modulus, and only that, goes unnoticed.
  lemma ModAdd(z: nat, k: nat)
    ensures (z + k) % UINT16 == k <==> k < UINT16 && z % UINT16 == 0
  {}

  // The histograms before and after the move, in parts.
  lemma MergedHistogram(s: seq<Sample>, zeros: seq<Sample>, rest: seq<Sample>, b: int)
    requires s == zeros + rest && rest != [] && Stamped(s) == Merged(zeros, rest)
    ensures var moved := Restamped(zeros, rest[0].bucket);
      && SumAt(s, b) == SumAt(zeros, b) + SumAt(rest, b) && CountAt(s, b) == CountAt(zeros, b) + CountAt(rest, b)
      && SumAt(Stamped(s), b) == SumAt(moved, b) + SumAt(rest, b)
      && CountAt(Stamped(s), b) == CountAt(moved, b) + CountAt(rest, b)
  {
    CountConcat(zeros, rest, b);
    CountConcat(Restamped(zeros, rest[0].bucket), rest, b);
  }

  lemma LaterThanZero(rest: seq<Sample>)
    requires rest != [] && Nondecreasing(rest) && rest[0].bucket > 0
    ensures SumAt(rest, 0) == 0.0 && CountAt(rest, 0) == 0
  {
    HistogramEmpty(rest, 0);
  }

  lemma ZeroHistogram(s: seq<Sample>, zeros: seq<Sample>, rest: seq<Sample>)
    requires s == zeros + rest && rest != [] && Nondecreasing(rest) && rest[0].bucket > 0
    ensures SumAt(s, 0) == SumAt(zeros, 0)
  {
    CountConcat(zeros, rest, 0);
    LaterThanZero(rest);
  }

  // Bucket p gains the samples of bucket zero.
  lemma MovedHistogram(s: seq<Sample>, zeros: seq<Sample>, rest: seq<Sample>, p: nat)
    requires s == zeros + rest && AllZero(zeros) && rest != [] && p == rest[0].bucket > 0
    requires Stamped(s) == Merged(zeros, rest)
    ensures SumAt(Stamped(s), p) == SumAt(s, p) + SumAt(zeros, 0)
    ensures CountAt(Stamped(s), p) == |zeros| + CountAt(s, p)
  {
    MergedHistogram(s, zeros, rest, p);
    HistogramEmpty(zeros, p);
    RestampedZeros(zeros, p);
  }

  lemma RestampedZeros(zeros: seq<Sample>, p: nat)
    requires AllZero(zeros)
    ensures SumAt(Restamped(zeros, p), p) == SumAt(zeros, 0) && CountAt(Restamped(zeros, p), p) == |zeros|
  {
    RestampedHistogram(zeros, 0, p, 0);
    CountAll(Restamped(zeros, p), p);
  }

  lemma MovedTo(s: seq<Sample>, zeros: seq<Sample>, rest: seq<Sample>)
    requires s == zeros + rest && AllZero(zeros) && rest != [] && Nondecreasing(rest)
    requires rest[0].bucket > 0 && Stamped(s) == Merged(zeros, rest)
    ensures var p := rest[0].bucket;
      SameBucket(s, p) <==> CountAt(s, p) < UINT16 && |zeros| % UINT16 == 0 && SumAt(s, 0) == 0.0
  {
    var p := rest[0].bucket;
    ZeroHistogram(s, zeros, rest);
    MovedHistogram(s, zeros, rest, p);
    ModAdd(|zeros|, CountAt(s, p));
  }

  // Bucket zero loses them.
  lemma MovedAway(s: seq<Sample>, zeros: seq<Sample>, rest: seq<Sample>)
    requires s == zeros + rest && zeros != [] && AllZero(zeros) && rest != [] && Nondecreasing(rest)
    requires rest[0].bucket > 0 && Stamped(s) == Merged(zeros, rest)
    ensures !SameBucket(s, 0)
  {
    MergedHistogram(s, zeros, rest, 0);
    CountAll(zeros, 0);
    HistogramEmpty(Restamped(zeros, rest[0].bucket), 0);
    LaterThanZero(rest);
  }

  // No other bucket changes.
  lemma MovedFrom(s: seq<Sample>, zeros: seq<Sample>, rest: seq<Sample>, b: int)
    requires s == zeros + rest && AllZero(zeros) && rest != [] && b != 0 && b != rest[0].bucket
    requires Stamped(s) == Merged(zeros, rest)
    ensures SameBucket(s, b) <==> CountAt(s, b) < UINT16
  {
    MergedHistogram(s, zeros, rest, b);
    HistogramEmpty(zeros, b);
    HistogramEmpty(Restamped(zeros, rest[0].bucket), b);
    UnmovedBucket(s, b);
  }
}
