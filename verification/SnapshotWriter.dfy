/**
 One turn of the snapshot writer: take an event, cut its snapshot, account for it
 (the body of the loop in `writer_thread_main`).
 */
module SnapshotWriter {
  import opened IqRing
  import S = Snapshot
  import Q = SnapshotQueue

  function DisposalOf<T>(o: S.Outcome<T>): Q.Disposal {
    match o
    case TimedOut => Q.TimedOut
    case Missed => Q.Missed
    case Failed => Q.Failed
    case Kept(_, _) => Q.Kept
  }

  // A turn counts one outcome, in the counter of that outcome.
  predicate CountsOutcome<T>(k: Q.Counters, outcome: S.Outcome<T>, n: Q.Counters) {
    && n.kept == (if outcome.Kept? then k.kept + 1 else k.kept)
    && n.timedOut == (if outcome.TimedOut? then k.timedOut + 1 else k.timedOut)
    && n.missed == (if outcome.Missed? then k.missed + 1 else k.missed)
    && n.enqueued == k.enqueued && n.belowSnr == k.belowSnr && n.queueFull == k.queueFull
  }

  // The oldest queued event is the one that is written, and the counter that is bumped is
  // that of what became of it, whatever steps callers make during the turn.
  method HandleNext<T(0)>(recorder: Q.Recorder, ring: IqRing<T>, pre: nat, post: nat, io: S.Io,
                          env: nat -> seq<T>, meanwhile: seq<Q.Action>)
    returns (outcome: S.Outcome<T>)
    requires recorder.Valid() && Q.Enabled(recorder.config, recorder.spec, Q.Take) && ring.Valid()
    requires recorder.q as object != ring.data as object
    requires Q.Runs(recorder.config, Q.Do(recorder.config, recorder.spec, Q.Take), meanwhile)
    requires forall a :: a in meanwhile ==> Q.ByCaller(a)
    modifies recorder, recorder.q, ring.data, ring`totalWritten, ring`log
    ensures recorder.Valid() && ring.Valid() && old(ring.log) <= ring.log
    ensures var c := recorder.config;
      var met := Q.DoAll(c, Q.Do(c, old(recorder.spec), Q.Take), meanwhile);
      && met.current.Some? && recorder.spec == Q.Do(c, met, Q.Finish(DisposalOf(outcome)))
      && CountsOutcome(met.counters, outcome, recorder.counters)
    ensures S.Judged(outcome, ring.log, ring.capacity, old(recorder.spec).pending[0].lock, pre, post, io)
    ensures var start := S.Start(old(recorder.spec).pending[0].lock, pre);
      pre + post > 0 ==> outcome == S.Verdict(ring.log, ring.capacity, start, pre + post, io)
  {
    var event := recorder.Pop();
    Q.CallersKeepCurrent(recorder.config, recorder.spec, meanwhile);
    recorder.Interfere(meanwhile);
    outcome := S.HandleEvent(ring, pre, post, event.lock, io, env);
    recorder.Dispose(DisposalOf(outcome));
  }
}
