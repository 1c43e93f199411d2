/**
 Cutting one snapshot out of the sample ring while the ring is being written
 (`writer_handle_event` in iq_snapshot.c).
 */
module Snapshot {
  import opened IqRing

  const POLL_SLEEP_MS := 3
  const WAIT_TIMEOUT_MS := 2000

  // A time window in samples, rounded to nearest.
  function Samples(windowMs: nat, rate: real): int {
    (windowMs as real * rate / 1000.0 + 0.5).Floor
  }

  function Start(lock: nat, pre: nat): nat {
    if lock > pre then lock - pre else 0
  }

  predicate ContainsLock(lock: nat, pre: nat, post: nat) {
    Start(lock, pre) <= lock < Start(lock, pre) + pre + post
  }

  lemma ContainsLockIff(lock: nat, pre: nat, post: nat)
    ensures ContainsLock(lock, pre, post) <==> post >= 1 || lock < pre
  {}

  // The window holds the lock index for every lock exactly when the post-window rounds
  // to at least one sample.
  lemma ContainsEveryLockIff(preMs: nat, postMs: nat, rate: real)
    requires rate > 0.0
    ensures Samples(preMs, rate) >= 0 && Samples(postMs, rate) >= 0
    ensures (forall lock: nat :: ContainsLock(lock, Samples(preMs, rate), Samples(postMs, rate)))
      <==> postMs as real * rate >= 500.0
  {
    NonNegative(preMs, rate);
    NonNegative(postMs, rate);
    var pre, post := Samples(preMs, rate), Samples(postMs, rate);
    assert post >= 1 <==> postMs as real * rate >= 500.0;
    forall lock: nat ensures post >= 1 ==> ContainsLock(lock, pre, post) {
      ContainsLockIff(lock, pre, post);
    }
    ContainsLockIff(pre, pre, post);
    assert post == 0 ==> !ContainsLock(pre, pre, post);
  }

  // A window is rounded to the nearest number of samples, halves up.
  lemma SamplesNearest(windowMs: nat, rate: real)
    ensures var n := Samples(windowMs, rate) as real; var exact := windowMs as real * rate / 1000.0;
      n - 0.5 <= exact < n + 0.5
  {}

  lemma NonNegative(windowMs: nat, rate: real)
    requires rate > 0.0
    ensures Samples(windowMs, rate) >= 0
  {
    assert windowMs as real * rate >= 0.0;
  }

  // Which of the fallible library calls succeed for one event.
  datatype Io = Io(buffer: bool, directory: bool, file: bool, written: bool, renamed: bool, sidecar: bool)

  predicate AllOk(io: Io) {
    io.buffer && io.directory && io.file && io.written && io.renamed && io.sidecar
  }

  datatype Outcome<T> = TimedOut | Missed | Failed | Kept(start: nat, samples: seq<T>)

  // What becomes of an event, judged by the log at the last look at the ring.
  function Verdict<T>(log: seq<T>, capacity: nat, start: nat, total: nat, io: Io): Outcome<T> {
    if |log| < start + total then TimedOut
    else if start < Oldest(|log|, capacity) then Missed
    else if AllOk(io) then Kept(start, log[start..start + total])
    else Failed
  }

  // The same, said of each outcome: the window starts `pre` samples before the lock, or at
  // the first sample, and is lost if it ended late or began before the ring's oldest sample.
  ghost predicate Judged<T>(o: Outcome<T>, log: seq<T>, capacity: nat, lock: nat, pre: nat, post: nat, io: Io) {
    var start: nat := if lock >= pre then lock - pre else 0;
    var end := start + pre + post;
    var saved := io.buffer && io.directory && io.file && io.written && io.renamed && io.sidecar;
    && (o.TimedOut? <==> |log| < end)
    && (o.Kept? ==> saved && end <= |log| && o.start == start && o.samples == log[start..end])
    && (o.Failed? ==> !saved && end <= |log|)
    && (pre + post > 0 ==>
      && (o.Missed? <==> end <= |log| && start + capacity < |log|)
      && (o.Failed? <==> end <= |log| <= start + capacity && !saved)
      && (o.Kept? <==> end <= |log| <= start + capacity && saved))
  }

  // Everything the writer thread appended before the first n looks at the ring.
  ghost function Appended<T>(env: nat -> seq<T>, n: nat): seq<T> {
    if n == 0 then [] else Appended(env, n - 1) + env(n - 1)
  }

  // Wait until the ring has advanced past `end`.  Before its i-th look at the ring the
  // writer thread may have appended anything: env(i).  The wait ends at the first look
  // that sees enough, or at the 668th.
  method WaitFor<T(0)>(ring: IqRing<T>, end: nat, env: nat -> seq<T>) returns (ready: bool, looks: nat)
    requires ring.Valid()
    modifies ring.data, ring`totalWritten, ring`log
    ensures ring.Valid() && ring.log == old(ring.log) + Appended(env, looks)
    ensures 1 <= looks <= 668 && (ready <==> |ring.log| >= end) && (!ready ==> looks == 668)
    ensures forall i :: 1 <= i < looks ==> |old(ring.log)| + |Appended(env, i)| < end
  {
    var waited := 0;
    looks := 0;
    while true
      invariant ring.Valid() && ring.log == old(ring.log) + Appended(env, looks)
      invariant waited == POLL_SLEEP_MS * looks < WAIT_TIMEOUT_MS + POLL_SLEEP_MS
      invariant forall i :: 1 <= i <= looks ==> |old(ring.log)| + |Appended(env, i)| < end
      decreases WAIT_TIMEOUT_MS - waited
    {
      var _ := ring.Append(env(looks));
      looks := looks + 1;
      var _, newestPlusOne := ring.LiveRange();
      if newestPlusOne >= end {
        return true, looks;
      }
      if waited >= WAIT_TIMEOUT_MS {
        return false, looks;
      }
      waited := waited + POLL_SLEEP_MS;
    }
  }

  // The write steps after the copy; any failure drops the event without a counter.
  method Save<T>(start: nat, samples: seq<T>, io: Io) returns (outcome: Outcome<T>)
    requires io.buffer
    ensures outcome == if AllOk(io) then Kept(start, samples) else Failed
  {
    if !io.directory { return Failed; }
    if !io.file { return Failed; }
    if !io.written { return Failed; }
    if !io.renamed { return Failed; }
    if !io.sidecar { return Failed; }
    return Kept(start, samples);
  }

  // The log has passed the window: copy it if it is all still in the ring, and save it.
  method Extract<T(0)>(ring: IqRing<T>, start: nat, total: nat, io: Io, first: seq<T>, second: seq<T>)
    returns (outcome: Outcome<T>)
    requires ring.Valid() && start + total <= |ring.log|
    modifies ring.data, ring`totalWritten, ring`log
    ensures ring.Valid() && old(ring.log) <= ring.log && !outcome.TimedOut?
    ensures outcome.Kept? ==> AllOk(io) && outcome == Kept(start, ring.log[start..start + total])
    ensures outcome.Failed? ==> !AllOk(io)
    ensures total > 0 ==> outcome == Verdict(ring.log, ring.capacity, start, total, io)
  {
    var _ := ring.Append(first);
    var oldest, _ := ring.LiveRange();
    if start < oldest {
      return Missed;
    }
    if !io.buffer {
      return Failed;
    }
    var _ := ring.Append(second);
    var samples := ring.GetWindow(start, total);
    if |samples| < total {
      return Missed;
    }
    outcome := Save(start, samples, io);
  }

  lemma VerdictIsJudged<T>(o: Outcome<T>, log: seq<T>, capacity: nat, lock: nat, pre: nat, post: nat, io: Io)
    requires var start, total := Start(lock, pre), pre + post;
      && (o.TimedOut? <==> |log| < start + total)
      && (o.Kept? ==> AllOk(io) && start + total <= |log| && o == Kept(start, log[start..start + total]))
      && (o.Failed? ==> !AllOk(io))
      && (total > 0 ==> o == Verdict(log, capacity, start, total, io))
    ensures Judged(o, log, capacity, lock, pre, post, io)
  {}

  // A kept snapshot is exactly the log from `start`, whatever was appended in between.
  method HandleEvent<T(0)>(ring: IqRing<T>, pre: nat, post: nat, lock: nat, io: Io, env: nat -> seq<T>)
    returns (outcome: Outcome<T>)
    requires ring.Valid()
    modifies ring.data, ring`totalWritten, ring`log
    ensures ring.Valid() && old(ring.log) <= ring.log
    ensures Judged(outcome, ring.log, ring.capacity, lock, pre, post, io)
    ensures pre + post > 0 ==> outcome == Verdict(ring.log, ring.capacity, Start(lock, pre), pre + post, io)
  {
    var total := pre + post;
    var start := Start(lock, pre);
    var ready, looks := WaitFor(ring, start + total, env);
    if ready {
      outcome := Extract(ring, start, total, io, env(looks), env(looks + 1));
    } else {
      outcome := TimedOut;
    }
    VerdictIsJudged(outcome, ring.log, ring.capacity, lock, pre, post, io);
  }
}
