/**
 What a cluster of the dedup ring is, over every run and in terms of its members only:
 when it opened, which member won and which slots it spans.
 */
module DedupClusters {
  import opened Dedup
  import opened DedupRuns

  // The times of the accepted arrivals of a run.
  function Times(actions: seq<Action>): (times: seq<int>) {
    if actions == [] then []
    else
      var times := Times(actions[..|actions| - 1]);
      match actions[|actions| - 1]
      case Arrive(r, at) => if 14 <= |r.payload| <= 256 then times + [at] else times
      case _ => times
  }

  predicate Within(arrivals: seq<Replica>, members: seq<nat>) {
    members != [] && forall j :: 0 <= j < |members| ==> members[j] < |arrivals|
  }

  // ---- The winner ----

  predicate Beats(x: Replica, y: Replica) {
    (x.crcOk && !y.crcOk) || (x.crcOk == y.crcOk && x.snr > y.snr)
  }

  // Member j beats every earlier member and is beaten by no later one.
  ghost predicate WonBy(arrivals: seq<Replica>, members: seq<nat>, best: Replica, j: nat)
    requires Within(arrivals, members)
  {
    && j < |members| && arrivals[members[j]] == best
    && (forall i :: 0 <= i < j ==> Beats(best, arrivals[members[i]]))
    && (forall i :: j < i < |members| ==> !Beats(arrivals[members[i]], best))
  }

  ghost predicate Winner(arrivals: seq<Replica>, members: seq<nat>, best: Replica)
    requires Within(arrivals, members)
  {
    exists j :: WonBy(arrivals, members, best, j)
  }

  // ---- The slots ----

  predicate Slotted(r: Replica) {
    0 <= r.user < 32767
  }

  ghost predicate HasSlot(arrivals: seq<Replica>, members: seq<nat>, slot: int)
    requires Within(arrivals, members)
  {
    exists j :: 0 <= j < |members| && Slotted(arrivals[members[j]]) && arrivals[members[j]].user == slot
  }

  // lo and hi are the least and the greatest slot of the members, or the mark for none.
  ghost predicate Spans(arrivals: seq<Replica>, members: seq<nat>, lo: int, hi: int)
    requires Within(arrivals, members)
  {
    if lo == -32768 then
      hi == -32768 && forall j :: 0 <= j < |members| ==> !Slotted(arrivals[members[j]])
    else
      && HasSlot(arrivals, members, lo) && HasSlot(arrivals, members, hi)
      && forall j :: 0 <= j < |members| && Slotted(arrivals[members[j]]) ==> lo <= arrivals[members[j]].user <= hi
  }

  // ---- One cluster ----

  ghost predicate Fits(times: seq<int>, arrivals: seq<Replica>, e: Entry, members: seq<nat>) {
    && |times| == |arrivals| && Within(arrivals, members)
    && e.emitAt == times[members[0]] + 30000
    && Winner(arrivals, members, e.best) && Spans(arrivals, members, e.minSlot, e.maxSlot)
  }

  lemma FitsOpened(times: seq<int>, arrivals: seq<Replica>, r: Replica, now: int)
    requires |times| == |arrivals|
    ensures Fits(times + [now], arrivals + [r], Opened(r, now), [|arrivals|])
  {
    var a, m := arrivals + [r], [|arrivals|];
    assert a[m[0]] == r;
    assert WonBy(a, m, r, 0);
    if Slotted(r) {
      assert HasSlot(a, m, r.user);
    }
  }

  lemma FitsGrows(times: seq<int>, arrivals: seq<Replica>, e: Entry, members: seq<nat>, r: Replica, now: int)
    requires Fits(times, arrivals, e, members)
    ensures Fits(times + [now], arrivals + [r], e, members)
  {
    var j :| WonBy(arrivals, members, e.best, j);
    assert WonBy(arrivals + [r], members, e.best, j);
    if e.minSlot != -32768 {
      SlotGrows(arrivals, members, e.minSlot, r, members);
      SlotGrows(arrivals, members, e.maxSlot, r, members);
    }
  }

  lemma SlotGrows(arrivals: seq<Replica>, members: seq<nat>, slot: int, r: Replica, more: seq<nat>)
    requires Within(arrivals, members) && Within(arrivals + [r], more) && members <= more
    requires HasSlot(arrivals, members, slot)
    ensures HasSlot(arrivals + [r], more, slot)
  {
    var j :| 0 <= j < |members| && Slotted(arrivals[members[j]]) && arrivals[members[j]].user == slot;
    assert more[j] == members[j] && (arrivals + [r])[more[j]] == arrivals[members[j]];
  }

  lemma BeatsTransitive(x: Replica, y: Replica, z: Replica)
    requires Beats(x, y) && !Beats(z, y)
    ensures Beats(x, z)
  {}

  lemma WinnerFolds(arrivals: seq<Replica>, members: seq<nat>, best: Replica, r: Replica)
    requires Within(arrivals, members) && Winner(arrivals, members, best)
    requires Within(arrivals + [r], members + [|arrivals|])
    ensures Winner(arrivals + [r], members + [|arrivals|], if Beats(r, best) then r else best)
  {
    var a, m := arrivals + [r], members + [|arrivals|];
    var j :| WonBy(arrivals, members, best, j);
    assert a[m[|members|]] == r;
    assert forall i :: 0 <= i < |members| ==> a[m[i]] == arrivals[members[i]];
    if Beats(r, best) {
      assert WonBy(a, m, r, |members|);
    } else {
      assert WonBy(a, m, best, j);
    }
  }

  lemma SpansFolds(arrivals: seq<Replica>, members: seq<nat>, e: Entry, r: Replica)
    requires Within(arrivals, members) && Spans(arrivals, members, e.minSlot, e.maxSlot)
    requires Within(arrivals + [r], members + [|arrivals|])
    ensures Spans(arrivals + [r], members + [|arrivals|], FoldIn(e, r).minSlot, FoldIn(e, r).maxSlot)
  {
    var a, m := arrivals + [r], members + [|arrivals|];
    assert a[m[|members|]] == r;
    assert forall i :: 0 <= i < |members| ==> a[m[i]] == arrivals[members[i]];
    if e.minSlot != -32768 {
      SlotGrows(arrivals, members, e.minSlot, r, m);
      SlotGrows(arrivals, members, e.maxSlot, r, m);
    }
    if Slotted(r) {
      assert HasSlot(a, m, r.user);
    }
  }

  lemma FitsFolded(times: seq<int>, arrivals: seq<Replica>, e: Entry, members: seq<nat>, r: Replica, now: int)
    requires Fits(times, arrivals, e, members)
    ensures Fits(times + [now], arrivals + [r], FoldIn(e, r), members + [|arrivals|])
  {
    WinnerFolds(arrivals, members, e.best, r);
    SpansFolds(arrivals, members, e, r);
  }

  // ---- Clusters only move ----

  // c was live in s.
  ghost predicate WasLive(s: Run, c: Cluster)
    requires ValidShape(s)
  {
    exists k :: 0 <= k < |s.ring| && s.ring[k].inUse && c == Cluster(s.ring[k], s.members[k])
  }

  // Every cluster of t was a cluster of s.
  ghost predicate Moved(s: Run, t: Run)
    requires ValidShape(s)
  {
    && ValidShape(t) && |t.ring| == |s.ring| && t.arrivals == s.arrivals
    && (forall k :: 0 <= k < |t.ring| && t.ring[k].inUse ==> t.ring[k] == s.ring[k] && t.members[k] == s.members[k])
    && (forall k :: 0 <= k < |t.emitted| ==> t.emitted[k] in s.emitted || WasLive(s, t.emitted[k]))
    && (forall k :: 0 <= k < |t.suppressed| ==> t.suppressed[k] in s.suppressed || WasLive(s, t.suppressed[k]))
  }

  lemma MovedTwice(s: Run, t: Run, u: Run)
    requires ValidShape(s) && Moved(s, t) && Moved(t, u)
    ensures Moved(s, u)
  {
    assert forall c :: WasLive(t, c) ==> WasLive(s, c);
  }

  lemma EmitMoves(s: Run, i: nat)
    requires ValidShape(s) && i < |s.ring| && s.ring[i].inUse
    ensures Moved(s, EmitAt(s, i)) && Moved(s, SuppressAt(s, i))
  {
    assert WasLive(s, Cluster(s.ring[i], s.members[i]));
  }

  lemma {:induction false} SuppressMoves(s: Run, r: Replica, now: int, i: nat)
    requires ValidShape(s) && i <= |s.ring|
    ensures Moved(s, SuppressFrom(s, r, now, i))
    decreases |s.ring| - i
  {
    if i < |s.ring| {
      if Suppressible(s.ring[i], r, now) {
        EmitMoves(s, i);
        SuppressMoves(SuppressAt(s, i), r, now, i + 1);
        MovedTwice(s, SuppressAt(s, i), SuppressFrom(s, r, now, i));
      } else {
        SuppressMoves(s, r, now, i + 1);
      }
    }
  }

  lemma {:induction false} DrainMoves(s: Run, now: int, i: nat, n: nat)
    requires ValidShape(s) && i <= |s.ring|
    ensures Moved(s, DrainFrom(s, now, i, n))
    decreases |s.ring| - i
  {
    if i < |s.ring| && n != DRAIN_BATCH {
      if s.ring[i].inUse && now >= s.ring[i].emitAt {
        EmitMoves(s, i);
        DrainMoves(EmitAt(s, i), now, i + 1, n + 1);
        MovedTwice(s, EmitAt(s, i), DrainFrom(s, now, i, n));
      } else {
        DrainMoves(s, now, i + 1, n);
      }
    }
  }

  lemma {:induction false} FlushMoves(s: Run, i: nat)
    requires ValidShape(s) && i <= |s.ring|
    ensures Moved(s, FlushFrom(s, i))
    decreases |s.ring| - i
  {
    if i < |s.ring| {
      if s.ring[i].inUse {
        EmitMoves(s, i);
        FlushMoves(EmitAt(s, i), i + 1);
        MovedTwice(s, EmitAt(s, i), FlushFrom(s, i));
      } else {
        FlushMoves(s, i + 1);
      }
    }
  }

  // ---- Every run ----

  ghost predicate AllFit(times: seq<int>, s: Run) {
    && ValidShape(s) && |times| == |s.arrivals|
    && (forall k :: 0 <= k < |s.ring| && s.ring[k].inUse ==> Fits(times, s.arrivals, s.ring[k], s.members[k]))
    && (forall k :: 0 <= k < |s.emitted| ==> Fits(times, s.arrivals, s.emitted[k].entry, s.emitted[k].members))
    && (forall k :: 0 <= k < |s.suppressed| ==>
      Fits(times, s.arrivals, s.suppressed[k].entry, s.suppressed[k].members))
  }

  lemma MovedFits(times: seq<int>, s: Run, t: Run)
    requires AllFit(times, s) && Moved(s, t)
    ensures AllFit(times, t)
  {
    assert forall c :: WasLive(s, c) ==> Fits(times, s.arrivals, c.entry, c.members);
  }

  lemma LoggedFits(times: seq<int>, s: Run, r: Replica, now: int)
    requires AllFit(times, s)
    ensures AllFit(times + [now], Logged(s, r))
  {
    forall k | 0 <= k < |s.ring| && s.ring[k].inUse
      ensures Fits(times + [now], s.arrivals + [r], s.ring[k], s.members[k])
    {
      FitsGrows(times, s.arrivals, s.ring[k], s.members[k], r, now);
    }
    forall k | 0 <= k < |s.emitted|
      ensures Fits(times + [now], s.arrivals + [r], s.emitted[k].entry, s.emitted[k].members)
    {
      FitsGrows(times, s.arrivals, s.emitted[k].entry, s.emitted[k].members, r, now);
    }
    forall k | 0 <= k < |s.suppressed|
      ensures Fits(times + [now], s.arrivals + [r], s.suppressed[k].entry, s.suppressed[k].members)
    {
      FitsGrows(times, s.arrivals, s.suppressed[k].entry, s.suppressed[k].members, r, now);
    }
  }

  lemma PlacedFits(times: seq<int>, s: Run, t: Run, i: nat, e: Entry, m: seq<nat>)
    requires AllFit(times, s) && i < |s.ring| && Fits(times, s.arrivals, e, m)
    requires t == s.(ring := s.ring[i := e], members := s.members[i := m])
    ensures AllFit(times, t)
  {}

  lemma ArriveFits(times: seq<int>, s: Run, r: Replica, now: int)
    requires AllFit(times, s) && Accepted(r)
    ensures AllFit(times + [now], DoArrive(s, r, now))
  {
    var a, id := Logged(s, r), |s.arrivals|;
    var i, slot := Match(s.ring, r, now), First(s.ring, (e: Entry) => !e.inUse, 0);
    LoggedFits(times, s, r, now);
    if i < |s.ring| {
      FitsFolded(times, s.arrivals, s.ring[i], s.members[i], r, now);
      PlacedFits(times + [now], a, FoldAt(a, i, r, id), i, FoldIn(s.ring[i], r), s.members[i] + [id]);
    } else if slot < |s.ring| {
      SuppressMoves(a, r, now, 0);
      MovedFits(times + [now], a, SuppressFrom(a, r, now, 0));
      var b := if CrcBad(r) then a else SuppressFrom(a, r, now, 0);
      FitsOpened(times, s.arrivals, r, now);
      PlacedFits(times + [now], b, OpenAt(b, slot, r, now, id), slot, Opened(r, now), [id]);
    }
  }

  lemma StepFits(times: seq<int>, s: Run, a: Action)
    requires AllFit(times, s)
    ensures AllFit(if a.Arrive? && Accepted(a.replica) then times + [a.at] else times, Do(s, a))
  {
    match a
    case Arrive(r, now) =>
      if Accepted(r) {
        ArriveFits(times, s, r, now);
      }
    case Drain(now) =>
      DrainMoves(s, now, 0, 0);
      MovedFits(times, s, Do(s, a));
    case Flush =>
      FlushMoves(s, 0);
      MovedFits(times, s, Do(s, a));
  }

  // Over every run, every cluster, live, emitted or suppressed, opened 30 ms before its
  // emission time, is won by the first of its members that no other beats, and spans
  // exactly the slots of its members.
  lemma {:induction false} RunFits(ring: seq<Entry>, actions: seq<Action>)
    requires Idle(ring)
    ensures AllFit(Times(actions), After(ring, actions))
  {
    if actions != [] {
      var n := |actions| - 1;
      RunFits(ring, actions[..n]);
      StepFits(Times(actions[..n]), After(ring, actions[..n]), actions[n]);
    }
  }

  // A cluster is emitted by no tick within 30 ms of the arrival that opened it, and a tick
  // that emits fewer than 64 clusters leaves none behind that is older.
  lemma EmittedAfterWindow(ring: seq<Entry>, actions: seq<Action>, now: int)
    requires Idle(ring)
    ensures var s, times := After(ring, actions), Times(actions);
      var t := After(ring, actions + [Drain(now)]);
      && |times| == |s.arrivals| && s.emitted <= t.emitted
      && (forall k :: |s.emitted| <= k < |t.emitted| ==> var c := t.emitted[k];
        Within(s.arrivals, c.members) && times[c.members[0]] + 30000 <= now)
      && (|t.emitted| < |s.emitted| + 64 ==>
        forall k :: 0 <= k < |t.ring| && t.ring[k].inUse ==>
          Within(s.arrivals, t.members[k]) && now < times[t.members[k][0]] + 30000)
  {
    var s := After(ring, actions);
    var more := actions + [Drain(now)];
    assert more[..|actions|] == actions && Times(more) == Times(actions);
    RunFits(ring, actions);
    RunFits(ring, more);
    DrainEmitsExpired(s, now, 0, 0);
  }
}
