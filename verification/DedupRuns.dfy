/**
 What holds of the dedup ring over every run of arrivals, drainer ticks and flushes.
 */
module DedupRuns {
  import opened Bits
  import opened Fingerprint
  import opened Dedup

  // ---- The ledger of arrivals ----

  // Any weighting of arrivals, summed over some of them.
  ghost function Weigh(ids: seq<nat>, w: nat -> nat): nat {
    if ids == [] then 0 else Weigh(ids[..|ids| - 1], w) + w(ids[|ids| - 1])
  }

  ghost function Sum(groups: seq<seq<nat>>, w: nat -> nat): nat {
    if groups == [] then 0 else Sum(groups[..|groups| - 1], w) + Weigh(groups[|groups| - 1], w)
  }

  // Over all of the first n arrivals.
  ghost function Total(n: nat, w: nat -> nat): nat {
    if n == 0 then 0 else Total(n - 1, w) + w(n - 1)
  }

  function Groups(cs: seq<Cluster>): (groups: seq<seq<nat>>)
    ensures |groups| == |cs|
  {
    seq(|cs|, i requires 0 <= i < |cs| => cs[i].members)
  }

  ghost function Ledger(s: Run, w: nat -> nat): nat {
    Sum(s.members, w) + Sum(Groups(s.emitted), w) + Sum(Groups(s.suppressed), w) + Weigh(s.dropped, w)
  }

  lemma WeighAppend(ids: seq<nat>, id: nat, w: nat -> nat)
    ensures Weigh(ids + [id], w) == Weigh(ids, w) + w(id)
  {
    assert (ids + [id])[..|ids|] == ids;
  }

  lemma {:induction false} SumUpdate(groups: seq<seq<nat>>, i: nat, x: seq<nat>, w: nat -> nat)
    requires i < |groups|
    ensures Sum(groups[i := x], w) + Weigh(groups[i], w) == Sum(groups, w) + Weigh(x, w)
  {
    var n := |groups| - 1;
    if i == n {
      assert groups[i := x][..n] == groups[..n];
    } else {
      assert groups[i := x][..n] == groups[..n][i := x];
      SumUpdate(groups[..n], i, x, w);
    }
  }

  lemma GroupsAppend(cs: seq<Cluster>, c: Cluster, w: nat -> nat)
    ensures Sum(Groups(cs + [c]), w) == Sum(Groups(cs), w) + Weigh(c.members, w)
  {
    assert Groups(cs + [c]) == Groups(cs) + [c.members];
    assert (Groups(cs) + [c.members])[..|cs|] == Groups(cs);
  }

  lemma {:induction false} SumNone(groups: seq<seq<nat>>, w: nat -> nat)
    requires forall k :: 0 <= k < |groups| ==> groups[k] == []
    ensures Sum(groups, w) == 0
  {
    if groups != [] {
      SumNone(groups[..|groups| - 1], w);
    }
  }

  // ---- One arrival ----

  // The weighting that counts the occurrences of one arrival.
  ghost function Only(id: nat): nat -> nat {
    (i: nat) => if i == id then 1 else 0
  }

  lemma {:induction false} TotalOnce(n: nat, id: nat)
    ensures Total(n, Only(id)) == if id < n then 1 else 0
  {
    if n > 0 {
      TotalOnce(n - 1, id);
    }
  }

  lemma {:induction false} WeighIn(ids: seq<nat>, id: nat)
    ensures Weigh(ids, Only(id)) > 0 <==> id in ids
  {
    if ids != [] {
      WeighIn(ids[..|ids| - 1], id);
      assert ids == ids[..|ids| - 1] + [ids[|ids| - 1]];
    }
  }

  lemma {:induction false} SumSome(groups: seq<seq<nat>>, id: nat)
    requires Sum(groups, Only(id)) > 0
    ensures exists k :: 0 <= k < |groups| && id in groups[k]
  {
    var n := |groups| - 1;
    WeighIn(groups[n], id);
    if id !in groups[n] {
      SumSome(groups[..n], id);
      var k :| 0 <= k < n && id in groups[..n][k];
      assert id in groups[k];
    }
  }

  lemma {:induction false} SumAtLeast(groups: seq<seq<nat>>, id: nat, k: nat)
    requires k < |groups| && id in groups[k]
    ensures Sum(groups, Only(id)) >= 1
  {
    var n := |groups| - 1;
    if k < n {
      SumAtLeast(groups[..n], id, k);
    } else {
      WeighIn(groups[n], id);
    }
  }

  lemma {:induction false} SumTwice(groups: seq<seq<nat>>, id: nat, j: nat, k: nat)
    requires j < k < |groups| && id in groups[j] && id in groups[k]
    ensures Sum(groups, Only(id)) >= 2
  {
    var n := |groups| - 1;
    if k < n {
      SumTwice(groups[..n], id, j, k);
    } else {
      SumAtLeast(groups[..n], id, j);
      WeighIn(groups[n], id);
    }
  }

  // ---- Clusters ----

  // The lexicographic order on (good, SNR).
  predicate AtLeast(x: Replica, y: Replica) {
    (x.crcOk && !y.crcOk) || (x.crcOk == y.crcOk && x.snr >= y.snr)
  }

  predicate Covers(e: Entry, r: Replica) {
    && e.sf == r.sf && e.bw == r.bw && AtLeast(e.best, r)
    && (SlotValid(r) ==> e.minSlot != NO_SLOT && e.minSlot <= r.user <= e.maxSlot)
  }

  // Member j of a cluster is the replica r.
  predicate IsMember(arrivals: seq<Replica>, members: seq<nat>, j: nat, r: Replica) {
    j < |members| && members[j] < |arrivals| && arrivals[members[j]] == r
  }

  // An entry stands for exactly its members: it counts them, its winner is one of them
  // and the greatest, and its fingerprint is the winner's.
  ghost predicate Sound(arrivals: seq<Replica>, e: Entry, members: seq<nat>) {
    && |members| == e.count
    && e.fp == FingerprintOf(e.best.payload)
    && (exists j :: IsMember(arrivals, members, j, e.best))
    && (forall j :: 0 <= j < |members| ==> members[j] < |arrivals| && Covers(e, arrivals[members[j]]))
  }

  ghost predicate SlotSound(arrivals: seq<Replica>, e: Entry, members: seq<nat>) {
    if e.inUse then Sound(arrivals, e, members) else members == []
  }

  ghost predicate Emittable(arrivals: seq<Replica>, c: Cluster) {
    Sound(arrivals, c.entry, c.members)
  }

  ghost predicate Suppressed(arrivals: seq<Replica>, c: Cluster) {
    Sound(arrivals, c.entry, c.members) && !c.entry.best.crcOk
  }

  ghost predicate Clusters(s: Run) {
    && ValidShape(s)
    && (forall i :: 0 <= i < |s.ring| ==> SlotSound(s.arrivals, s.ring[i], s.members[i]))
    && (forall k :: 0 <= k < |s.emitted| ==> Emittable(s.arrivals, s.emitted[k]))
    && (forall k :: 0 <= k < |s.suppressed| ==> Suppressed(s.arrivals, s.suppressed[k]))
  }

  lemma SoundGrows(arrivals: seq<Replica>, e: Entry, members: seq<nat>, r: Replica)
    requires Sound(arrivals, e, members)
    ensures Sound(arrivals + [r], e, members)
  {
    var j :| IsMember(arrivals, members, j, e.best);
    assert IsMember(arrivals + [r], members, j, e.best);
  }

  lemma SoundFold(arrivals: seq<Replica>, e: Entry, members: seq<nat>, r: Replica)
    requires Sound(arrivals, e, members) && SameRadio(e, r)
    ensures Sound(arrivals + [r], FoldIn(e, r), members + [|arrivals|])
  {
    var a, m, f := arrivals + [r], members + [|arrivals|], FoldIn(e, r);
    var j :| IsMember(arrivals, members, j, e.best);
    if Replaces(r, e.best) {
      assert IsMember(a, m, |members|, f.best);
    } else {
      assert IsMember(a, m, j, f.best);
    }
    forall j | 0 <= j < |m| ensures m[j] < |a| && Covers(f, a[m[j]]) {
      if j < |members| {
        assert m[j] == members[j] && a[m[j]] == arrivals[members[j]];
      }
    }
  }

  lemma SoundOpen(arrivals: seq<Replica>, r: Replica, now: int)
    ensures Sound(arrivals + [r], Opened(r, now), [|arrivals|])
  {
    assert IsMember(arrivals + [r], [|arrivals|], 0, r);
  }

  // ---- Every step keeps the invariant ----

  // The state with the arrival logged but not yet placed.
  function Logged(s: Run, r: Replica): Run {
    s.(arrivals := s.arrivals + [r])
  }

  lemma LoggedKeeps(s: Run, r: Replica)
    requires Clusters(s)
    ensures Clusters(Logged(s, r))
  {
    var a := s.arrivals + [r];
    forall i | 0 <= i < |s.ring| ensures SlotSound(a, s.ring[i], s.members[i]) {
      if s.ring[i].inUse { SoundGrows(s.arrivals, s.ring[i], s.members[i], r); }
    }
    forall k | 0 <= k < |s.emitted| ensures Emittable(a, s.emitted[k]) {
      SoundGrows(s.arrivals, s.emitted[k].entry, s.emitted[k].members, r);
    }
    forall k | 0 <= k < |s.suppressed| ensures Suppressed(a, s.suppressed[k]) {
      SoundGrows(s.arrivals, s.suppressed[k].entry, s.suppressed[k].members, r);
    }
  }

  lemma FreedKeeps(s: Run, i: nat)
    requires Clusters(s) && i < |s.ring|
    ensures Clusters(Freed(s, i))
  {}

  lemma EmitKeeps(s: Run, i: nat)
    requires Clusters(s) && i < |s.ring| && s.ring[i].inUse
    ensures Clusters(EmitAt(s, i))
  {
    FreedKeeps(s, i);
    assert Emittable(s.arrivals, Cluster(s.ring[i], s.members[i]));
  }

  lemma SuppressKeeps(s: Run, i: nat)
    requires Clusters(s) && i < |s.ring| && s.ring[i].inUse && !s.ring[i].best.crcOk
    ensures Clusters(SuppressAt(s, i))
  {
    FreedKeeps(s, i);
    assert Suppressed(s.arrivals, Cluster(s.ring[i], s.members[i]));
  }

  lemma {:induction false} SuppressFromKeeps(s: Run, r: Replica, now: int, i: nat)
    requires Clusters(s) && i <= |s.ring|
    ensures Clusters(SuppressFrom(s, r, now, i)) && SuppressFrom(s, r, now, i).arrivals == s.arrivals
    decreases |s.ring| - i
  {
    if i < |s.ring| {
      if Suppressible(s.ring[i], r, now) {
        SuppressKeeps(s, i);
        SuppressFromKeeps(SuppressAt(s, i), r, now, i + 1);
      } else {
        SuppressFromKeeps(s, r, now, i + 1);
      }
    }
  }

  // Replacing slot i by a sound cluster.
  lemma PlaceKeeps(s: Run, i: nat, e: Entry, m: seq<nat>)
    requires Clusters(s) && i < |s.ring| && Sound(s.arrivals, e, m) && e.inUse
    ensures Clusters(s.(ring := s.ring[i := e], members := s.members[i := m]))
  {
    assert SlotSound(s.arrivals, e, m);
  }

  lemma FoldKeeps(s: Run, i: nat, r: Replica)
    requires Clusters(s) && i < |s.ring| && SameRadio(s.ring[i], r)
    ensures Clusters(FoldAt(Logged(s, r), i, r, |s.arrivals|))
  {
    LoggedKeeps(s, r);
    assert SlotSound(s.arrivals, s.ring[i], s.members[i]);
    SoundFold(s.arrivals, s.ring[i], s.members[i], r);
    PlaceKeeps(Logged(s, r), i, FoldIn(s.ring[i], r), s.members[i] + [|s.arrivals|]);
  }

  lemma ArriveKeeps(s: Run, r: Replica, now: int)
    requires Clusters(s)
    ensures Clusters(DoArrive(s, r, now))
  {
    if Accepted(r) {
      var a := Logged(s, r);
      LoggedKeeps(s, r);
      var i := Match(s.ring, r, now);
      var slot := First(s.ring, (e: Entry) => !e.inUse, 0);
      if i < |s.ring| {
        FoldKeeps(s, i, r);
      } else if slot < |s.ring| {
        SuppressFromKeeps(a, r, now, 0);
        SoundOpen(s.arrivals, r, now);
        PlaceKeeps(if CrcBad(r) then a else SuppressFrom(a, r, now, 0), slot, Opened(r, now), [|s.arrivals|]);
      }
    }
  }

  lemma {:induction false} DrainKeeps(s: Run, now: int, i: nat, n: nat)
    requires Clusters(s) && i <= |s.ring|
    ensures Clusters(DrainFrom(s, now, i, n))
    decreases |s.ring| - i
  {
    if i < |s.ring| && n != DRAIN_BATCH {
      if s.ring[i].inUse && now >= s.ring[i].emitAt {
        EmitKeeps(s, i);
        DrainKeeps(EmitAt(s, i), now, i + 1, n + 1);
      } else {
        DrainKeeps(s, now, i + 1, n);
      }
    }
  }

  lemma {:induction false} FlushKeeps(s: Run, i: nat)
    requires Clusters(s) && i <= |s.ring|
    ensures Clusters(FlushFrom(s, i))
    decreases |s.ring| - i
  {
    if i < |s.ring| {
      if s.ring[i].inUse {
        EmitKeeps(s, i);
        FlushKeeps(EmitAt(s, i), i + 1);
      } else {
        FlushKeeps(s, i + 1);
      }
    }
  }

  lemma StepKeeps(s: Run, a: Action)
    requires Clusters(s)
    ensures Clusters(Do(s, a))
  {
    match a
    case Arrive(r, now) => ArriveKeeps(s, r, now);
    case Drain(now) => DrainKeeps(s, now, 0, 0);
    case Flush => FlushKeeps(s, 0);
  }

  // ---- Every step balances the ledger ----

  lemma EmitBalances(s: Run, i: nat, w: nat -> nat)
    requires ValidShape(s) && i < |s.ring|
    ensures Ledger(EmitAt(s, i), w) == Ledger(s, w)
  {
    SumUpdate(s.members, i, [], w);
    GroupsAppend(s.emitted, Cluster(s.ring[i], s.members[i]), w);
  }

  lemma SuppressBalances(s: Run, i: nat, w: nat -> nat)
    requires ValidShape(s) && i < |s.ring|
    ensures Ledger(SuppressAt(s, i), w) == Ledger(s, w)
  {
    SumUpdate(s.members, i, [], w);
    GroupsAppend(s.suppressed, Cluster(s.ring[i], s.members[i]), w);
  }

  lemma {:induction false} SuppressFromBalances(s: Run, r: Replica, now: int, i: nat, w: nat -> nat)
    requires ValidShape(s) && i <= |s.ring|
    ensures Ledger(SuppressFrom(s, r, now, i), w) == Ledger(s, w)
    decreases |s.ring| - i
  {
    if i < |s.ring| {
      if Suppressible(s.ring[i], r, now) {
        SuppressBalances(s, i, w);
        SuppressFromBalances(SuppressAt(s, i), r, now, i + 1, w);
      } else {
        SuppressFromBalances(s, r, now, i + 1, w);
      }
    }
  }

  lemma PlaceBalances(s: Run, i: nat, e: Entry, id: nat, w: nat -> nat)
    requires ValidShape(s) && i < |s.ring|
    ensures Ledger(s.(ring := s.ring[i := e], members := s.members[i := s.members[i] + [id]]), w)
            == Ledger(s, w) + w(id)
  {
    SumUpdate(s.members, i, s.members[i] + [id], w);
    WeighAppend(s.members[i], id, w);
  }

  lemma OpenBalances(s: Run, r: Replica, now: int, slot: nat, w: nat -> nat)
    requires Clusters(s) && slot < |s.ring| && !s.ring[slot].inUse
    ensures var a := Logged(s, r); var t := if CrcBad(r) then a else SuppressFrom(a, r, now, 0);
      Ledger(OpenAt(t, slot, r, now, |s.arrivals|), w) == Ledger(s, w) + w(|s.arrivals|)
  {
    var id, a := |s.arrivals|, Logged(s, r);
    SuppressFromBalances(a, r, now, 0, w);
    var t := if CrcBad(r) then a else SuppressFrom(a, r, now, 0);
    assert SlotSound(s.arrivals, s.ring[slot], s.members[slot]);
    assert t.members[slot] + [id] == [id];
    PlaceBalances(t, slot, Opened(r, now), id, w);
  }

  lemma ArriveBalances(s: Run, r: Replica, now: int, w: nat -> nat)
    requires Clusters(s) && Accepted(r)
    ensures Ledger(DoArrive(s, r, now), w) == Ledger(s, w) + w(|s.arrivals|)
  {
    var i := Match(s.ring, r, now);
    var slot := First(s.ring, (e: Entry) => !e.inUse, 0);
    if i < |s.ring| {
      PlaceBalances(Logged(s, r), i, FoldIn(s.ring[i], r), |s.arrivals|, w);
    } else if slot < |s.ring| {
      OpenBalances(s, r, now, slot, w);
    } else {
      WeighAppend(s.dropped, |s.arrivals|, w);
    }
  }

  lemma ArriveLogs(s: Run, r: Replica, now: int)
    requires Clusters(s) && Accepted(r)
    ensures DoArrive(s, r, now).arrivals == s.arrivals + [r]
  {
    LoggedKeeps(s, r);
    SuppressFromKeeps(Logged(s, r), r, now, 0);
  }

  lemma ArriveTotals(s: Run, r: Replica, now: int, w: nat -> nat)
    requires Clusters(s) && Ledger(s, w) == Total(|s.arrivals|, w)
    ensures Ledger(DoArrive(s, r, now), w) == Total(|DoArrive(s, r, now).arrivals|, w)
  {
    if Accepted(r) {
      ArriveBalances(s, r, now, w);
      ArriveLogs(s, r, now);
      TotalStep(s, DoArrive(s, r, now), r, w);
    }
  }

  lemma TotalStep(s: Run, t: Run, r: Replica, w: nat -> nat)
    requires t.arrivals == s.arrivals + [r]
    requires Ledger(s, w) == Total(|s.arrivals|, w) && Ledger(t, w) == Ledger(s, w) + w(|s.arrivals|)
    ensures Ledger(t, w) == Total(|t.arrivals|, w)
  {}

  lemma {:induction false} DrainBalances(s: Run, now: int, i: nat, n: nat, w: nat -> nat)
    requires ValidShape(s) && i <= |s.ring|
    ensures Ledger(DrainFrom(s, now, i, n), w) == Ledger(s, w)
    decreases |s.ring| - i
  {
    if i < |s.ring| && n != DRAIN_BATCH {
      DrainNext(s, now, i, n);
      if s.ring[i].inUse && now >= s.ring[i].emitAt {
        EmitBalances(s, i, w);
        DrainBalances(EmitAt(s, i), now, i + 1, n + 1, w);
      } else {
        DrainBalances(s, now, i + 1, n, w);
      }
    }
  }

  lemma {:induction false} DrainKeepsArrivals(s: Run, now: int, i: nat, n: nat)
    requires ValidShape(s) && i <= |s.ring|
    ensures DrainFrom(s, now, i, n).arrivals == s.arrivals
    decreases |s.ring| - i
  {
    if i < |s.ring| && n != DRAIN_BATCH {
      DrainNext(s, now, i, n);
      if s.ring[i].inUse && now >= s.ring[i].emitAt {
        DrainKeepsArrivals(EmitAt(s, i), now, i + 1, n + 1);
      } else {
        DrainKeepsArrivals(s, now, i + 1, n);
      }
    }
  }

  lemma DrainNext(s: Run, now: int, i: nat, n: nat)
    requires ValidShape(s) && i < |s.ring| && n != DRAIN_BATCH
    ensures DrainFrom(s, now, i, n) ==
      if s.ring[i].inUse && now >= s.ring[i].emitAt then DrainFrom(EmitAt(s, i), now, i + 1, n + 1)
      else DrainFrom(s, now, i + 1, n)
  {}

  lemma {:induction false} FlushBalances(s: Run, i: nat, w: nat -> nat)
    requires ValidShape(s) && i <= |s.ring|
    ensures Ledger(FlushFrom(s, i), w) == Ledger(s, w) && FlushFrom(s, i).arrivals == s.arrivals
    decreases |s.ring| - i
  {
    if i < |s.ring| {
      if s.ring[i].inUse {
        EmitBalances(s, i, w);
        FlushBalances(EmitAt(s, i), i + 1, w);
      } else {
        FlushBalances(s, i + 1, w);
      }
    }
  }

  // The flush leaves nothing live.
  lemma {:induction false} FlushEmpties(s: Run, i: nat)
    requires ValidShape(s) && i <= |s.ring|
    requires forall k :: 0 <= k < i ==> !s.ring[k].inUse
    ensures Idle(FlushFrom(s, i).ring)
    decreases |s.ring| - i
  {
    if i < |s.ring| {
      FlushEmpties(if s.ring[i].inUse then EmitAt(s, i) else s, i + 1);
    }
  }

  // ---- Runs ----

  // No entry is in use.
  predicate Idle(ring: seq<Entry>) {
    forall i :: 0 <= i < |ring| ==> !ring[i].inUse
  }

  function Start(ring: seq<Entry>): Run {
    Run(ring, seq(|ring|, _ => []), [], [], [], [])
  }

  // The state a run leads to from an idle ring of any size.
  ghost function After(ring: seq<Entry>, actions: seq<Action>): (s: Run)
    requires Idle(ring)
    ensures Clusters(s)
  {
    if actions == [] then
      Start(ring)
    else
      var s := After(ring, actions[..|actions| - 1]);
      StepKeeps(s, actions[|actions| - 1]);
      Do(s, actions[|actions| - 1])
  }

  // After every run, whatever arrivals are weighed by, the clusters and the drops hold
  // each of them exactly once.
  lemma {:induction false} LedgerBalances(ring: seq<Entry>, actions: seq<Action>, w: nat -> nat)
    requires Idle(ring)
    ensures Ledger(After(ring, actions), w) == Total(|After(ring, actions).arrivals|, w)
  {
    if actions == [] {
      SumNone(Start(ring).members, w);
    } else {
      LedgerBalances(ring, actions[..|actions| - 1], w);
      StepBalances(After(ring, actions[..|actions| - 1]), actions[|actions| - 1], w);
    }
  }

  lemma StepBalances(s: Run, a: Action, w: nat -> nat)
    requires Clusters(s) && Ledger(s, w) == Total(|s.arrivals|, w)
    ensures Ledger(Do(s, a), w) == Total(|Do(s, a).arrivals|, w)
  {
    match a
    case Arrive(r, now) => ArriveTotals(s, r, now, w);
    case Drain(now) =>
      DrainBalances(s, now, 0, 0, w);
      DrainKeepsArrivals(s, now, 0, 0);
    case Flush => FlushBalances(s, 0, w);
  }

  // ---- Conservation ----

  // The replica counts of some clusters, and of the live entries.
  function Counted(cs: seq<Cluster>): nat {
    if cs == [] then 0 else Counted(cs[..|cs| - 1]) + cs[|cs| - 1].entry.count
  }

  function Live(ring: seq<Entry>): nat {
    if ring == [] then 0
    else Live(ring[..|ring| - 1]) + if ring[|ring| - 1].inUse then ring[|ring| - 1].count else 0
  }

  ghost function One(): nat -> nat {
    (i: nat) => 1
  }

  lemma {:induction false} WeighOne(ids: seq<nat>)
    ensures Weigh(ids, One()) == |ids|
  {
    if ids != [] {
      WeighOne(ids[..|ids| - 1]);
    }
  }

  lemma {:induction false} TotalOne(n: nat)
    ensures Total(n, One()) == n
  {
    if n > 0 {
      TotalOne(n - 1);
    }
  }

  lemma {:induction false} CountedIsSum(arrivals: seq<Replica>, cs: seq<Cluster>)
    requires forall k :: 0 <= k < |cs| ==> Emittable(arrivals, cs[k])
    ensures Counted(cs) == Sum(Groups(cs), One())
  {
    if cs != [] {
      var n := |cs| - 1;
      assert Emittable(arrivals, cs[n]);
      CountedIsSum(arrivals, cs[..n]);
      assert cs == cs[..n] + [cs[n]];
      GroupsAppend(cs[..n], cs[n], One());
      WeighOne(cs[n].members);
    }
  }

  lemma {:induction false} LiveIsSum(arrivals: seq<Replica>, ring: seq<Entry>, members: seq<seq<nat>>)
    requires |ring| == |members|
    requires forall i :: 0 <= i < |ring| ==> SlotSound(arrivals, ring[i], members[i])
    ensures Live(ring) == Sum(members, One())
  {
    if ring != [] {
      var n := |ring| - 1;
      assert SlotSound(arrivals, ring[n], members[n]);
      LiveIsSum(arrivals, ring[..n], members[..n]);
      WeighOne(members[n]);
    }
  }

  // The replica counts of emitted, live and suppressed clusters and the ring-full drops
  // add up to the accepted replicas, after every run.
  lemma Conservation(ring: seq<Entry>, actions: seq<Action>)
    requires Idle(ring)
    ensures var s := After(ring, actions);
      |s.arrivals| == Counted(s.emitted) + Live(s.ring) + Counted(s.suppressed) + |s.dropped|
  {
    var s := After(ring, actions);
    LedgerBalances(ring, actions, One());
    TotalOne(|s.arrivals|);
    WeighOne(s.dropped);
    CountedIsSum(s.arrivals, s.emitted);
    forall k | 0 <= k < |s.suppressed| ensures Emittable(s.arrivals, s.suppressed[k]) {
      assert Suppressed(s.arrivals, s.suppressed[k]);
    }
    CountedIsSum(s.arrivals, s.suppressed);
    LiveIsSum(s.arrivals, s.ring, s.members);
  }

  // ---- Good replicas are represented ----

  // A cluster that speaks for a CRC-good replica.
  predicate Represents(e: Entry, members: seq<nat>, id: nat, r: Replica) {
    id in members && e.sf == r.sf && e.bw == r.bw && e.best.crcOk && e.best.snr >= r.snr
  }

  lemma SoundRepresents(arrivals: seq<Replica>, e: Entry, members: seq<nat>, id: nat)
    requires Sound(arrivals, e, members) && id in members
    ensures id < |arrivals|
    ensures arrivals[id].crcOk ==> Represents(e, members, id, arrivals[id])
  {
    var j :| 0 <= j < |members| && members[j] == id;
    assert Covers(e, arrivals[members[j]]);
  }

  // A good arrival is never in a suppressed cluster.
  lemma NotSuppressed(s: Run, id: nat)
    requires Clusters(s) && id < |s.arrivals| && s.arrivals[id].crcOk
    ensures Sum(Groups(s.suppressed), Only(id)) == 0
  {
    if Sum(Groups(s.suppressed), Only(id)) > 0 {
      SumSome(Groups(s.suppressed), id);
      var k :| 0 <= k < |s.suppressed| && id in Groups(s.suppressed)[k];
      assert Suppressed(s.arrivals, s.suppressed[k]);
      SoundRepresents(s.arrivals, s.suppressed[k].entry, s.suppressed[k].members, id);
      assert false;
    }
  }

  // Over any run that ends with the flush, a CRC-good replica that was not dropped for a
  // full ring is represented by one emitted cluster, and by one only.
  lemma GoodIsEmittedOnce(ring: seq<Entry>, actions: seq<Action>, id: nat)
    requires Idle(ring) && actions != [] && actions[|actions| - 1] == Flush
    requires id < |After(ring, actions).arrivals|
    requires After(ring, actions).arrivals[id].crcOk && id !in After(ring, actions).dropped
    ensures var s := After(ring, actions);
      exists k :: 0 <= k < |s.emitted| && Represents(s.emitted[k].entry, s.emitted[k].members, id, s.arrivals[id])
    ensures var s := After(ring, actions);
      forall j, k :: 0 <= j < k < |s.emitted| && id in s.emitted[j].members ==> id !in s.emitted[k].members
  {
    var s := After(ring, actions);
    FlushEmpties(After(ring, actions[..|actions| - 1]), 0);
    forall i | 0 <= i < |s.members| ensures s.members[i] == [] {
      assert SlotSound(s.arrivals, s.ring[i], s.members[i]);
    }
    SumNone(s.members, Only(id));
    NotSuppressed(s, id);
    LedgerBalances(ring, actions, Only(id));
    TotalOnce(|s.arrivals|, id);
    WeighIn(s.dropped, id);
    EmittedOnce(s, id);
  }

  lemma EmittedOnce(s: Run, id: nat)
    requires Clusters(s) && id < |s.arrivals| && s.arrivals[id].crcOk && Sum(Groups(s.emitted), Only(id)) == 1
    ensures exists k :: 0 <= k < |s.emitted| && Represents(s.emitted[k].entry, s.emitted[k].members, id, s.arrivals[id])
    ensures forall j, k :: 0 <= j < k < |s.emitted| && id in s.emitted[j].members ==> id !in s.emitted[k].members
  {
    SumSome(Groups(s.emitted), id);
    var k :| 0 <= k < |s.emitted| && id in Groups(s.emitted)[k];
    assert Emittable(s.arrivals, s.emitted[k]);
    SoundRepresents(s.arrivals, s.emitted[k].entry, s.emitted[k].members, id);
    forall j, k | 0 <= j < k < |s.emitted| && id in s.emitted[j].members ensures id !in s.emitted[k].members {
      if id in s.emitted[k].members {
        assert id in Groups(s.emitted)[j] && id in Groups(s.emitted)[k];
        SumTwice(Groups(s.emitted), id, j, k);
      }
    }
  }

  // The winner of every emitted cluster is a member and the lexicographic maximum of
  // (good, SNR) over the members.
  lemma WinnerIsMaximum(ring: seq<Entry>, actions: seq<Action>, k: nat)
    requires Idle(ring) && k < |After(ring, actions).emitted|
    ensures var s := After(ring, actions); var c := s.emitted[k];
      && c.entry.count == |c.members| > 0
      && (exists j :: IsMember(s.arrivals, c.members, j, c.entry.best))
      && (forall j :: 0 <= j < |c.members| ==>
        c.members[j] < |s.arrivals| && AtLeast(c.entry.best, s.arrivals[c.members[j]]))
  {
    var s := After(ring, actions);
    var c := s.emitted[k];
    assert Emittable(s.arrivals, c);
    forall j | 0 <= j < |c.members|
      ensures c.members[j] < |s.arrivals| && AtLeast(c.entry.best, s.arrivals[c.members[j]])
    {
      assert Covers(c.entry, s.arrivals[c.members[j]]);
    }
  }

  // ---- Near replicas fold in ----

  // A replica within 14 bit errors, or 22 if it failed its CRC, of a live cluster's best
  // payload, at the same length, SF and BW, is folded into a cluster; none is opened.
  lemma NearReplicaFoldsIn(ring: seq<Entry>, actions: seq<Action>, i: nat, r: Replica, now: int)
    requires Idle(ring) && i < |After(ring, actions).ring|
    requires Accepted(r) && SameRadio(After(ring, actions).ring[i], r)
    requires |After(ring, actions).ring[i].best.payload| == |r.payload|
    requires BitErrors(After(ring, actions).ring[i].best.payload, r.payload) <= if r.hasCrc && !r.crcOk then 22 else 14
    ensures var s := After(ring, actions);
      var t := After(ring, actions + [Arrive(r, now)]);
      var m := Match(s.ring, r, now);
      && m < |s.ring| && s.ring[m].inUse
      && t.members == s.members[m := s.members[m] + [|s.arrivals|]]
      && t.emitted == s.emitted && t.suppressed == s.suppressed
      && (forall j :: 0 <= j < |s.ring| ==> t.ring[j].inUse == s.ring[j].inUse)
  {
    var s := After(ring, actions);
    assert SlotSound(s.arrivals, s.ring[i], s.members[i]);
    FingerprintDistance(s.ring[i].best.payload, r.payload);
    var fp := FingerprintOf(r.payload);
    assert Tier1(s.ring[i], r, fp);
    assert (actions + [Arrive(r, now)])[..|actions|] == actions;
  }

  // ---- The other tiers, suppression and the drainer ----

  // A CRC-fail replica never opens a cluster while a live cluster of its spreading factor
  // and bandwidth, opened within the window, has a CRC-good winner.
  lemma FailFoldsIntoPass(ring: seq<Entry>, r: Replica, now: int, i: nat)
    requires i < |ring| && CrcBad(r) && SameRadio(ring[i], r)
    requires ring[i].best.crcOk && OpenedWithin(ring[i], now, TIER3_WINDOW_US)
    ensures Match(ring, r, now) < |ring|
  {
    assert Tier3(ring[i], r, now);
  }

  // Nor does a replica whose slot is within three of a cluster opened in the last half
  // millisecond.
  lemma AdjacentFoldsIn(ring: seq<Entry>, r: Replica, now: int, i: nat)
    requires i < |ring| && SlotValid(r) && SameRadio(ring[i], r) && OpenedWithin(ring[i], now, SLOT_ADJACENCY_US)
    requires ring[i].minSlot != NO_SLOT && ring[i].minSlot - 3 <= r.user <= ring[i].maxSlot + 3
    ensures Match(ring, r, now) < |ring|
  {
    assert Tier2(ring[i], r, now);
  }

  lemma {:induction false} SuppressClears(s: Run, r: Replica, now: int, i: nat)
    requires ValidShape(s) && i <= |s.ring|
    ensures var t := SuppressFrom(s, r, now, i);
      forall k :: 0 <= k < |s.ring| ==>
        t.ring[k] == if k >= i && Suppressible(s.ring[k], r, now) then s.ring[k].(inUse := false) else s.ring[k]
    decreases |s.ring| - i
  {
    if i < |s.ring| {
      SuppressClears(if Suppressible(s.ring[i], r, now) then SuppressAt(s, i) else s, r, now, i + 1);
    }
  }

  // When a replica that did not fail its CRC opens a cluster, no cluster of the same radio
  // parameters without a CRC-good winner and opened within the window stays live, and
  // every other cluster does.
  lemma PassSuppressesFails(s: Run, r: Replica, now: int)
    requires ValidShape(s) && Accepted(r) && !CrcBad(r) && Match(s.ring, r, now) == |s.ring|
    requires First(s.ring, (e: Entry) => !e.inUse, 0) < |s.ring|
    ensures var t := DoArrive(s, r, now); var slot := First(s.ring, (e: Entry) => !e.inUse, 0);
      forall k :: 0 <= k < |s.ring| && k != slot ==>
        t.ring[k] == if Suppressible(s.ring[k], r, now) then s.ring[k].(inUse := false) else s.ring[k]
  {
    SuppressClears(Logged(s, r), r, now, 0);
  }

  predicate Expired(e: Entry, now: int) {
    e.inUse && now >= e.emitAt
  }

  // A tick emits only expired clusters, never more than the batch, and leaves an expired
  // one behind only when the batch is full.
  lemma {:induction false} DrainEmitsExpired(s: Run, now: int, i: nat, n: nat)
    requires ValidShape(s) && i <= |s.ring| && n <= DRAIN_BATCH
    ensures var t := DrainFrom(s, now, i, n);
      && |t.ring| == |s.ring| && s.emitted <= t.emitted && n + |t.emitted| - |s.emitted| <= DRAIN_BATCH
      && (forall k :: |s.emitted| <= k < |t.emitted| ==> Expired(t.emitted[k].entry, now))
      && (n + |t.emitted| - |s.emitted| < DRAIN_BATCH ==> forall k :: i <= k < |t.ring| ==> !Expired(t.ring[k], now))
      && (forall k :: 0 <= k < i ==> t.ring[k] == s.ring[k])
    decreases |s.ring| - i
  {
    if i < |s.ring| && n < DRAIN_BATCH {
      if Expired(s.ring[i], now) {
        DrainEmitsExpired(EmitAt(s, i), now, i + 1, n + 1);
      } else {
        DrainEmitsExpired(s, now, i + 1, n);
      }
    }
  }
}
