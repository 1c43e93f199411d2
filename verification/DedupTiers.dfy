/**
 When a replica joins a cluster of the dedup ring, which one it joins, and what becomes of
 a replica that joins none, in terms of fingerprints, slots and times.
 */
module DedupTiers {
  import opened Fingerprint
  import opened Dedup
  import opened DedupRuns

  predicate Failed(r: Replica) {
    r.hasCrc && !r.crcOk
  }

  // A live cluster of the replica's spreading factor and bandwidth.
  predicate Kindred(e: Entry, r: Replica) {
    e.inUse && e.sf == r.sf && e.bw == r.bw
  }

  // The cluster's age: its emission time is 30 ms after it opened.
  function Age(e: Entry, now: int): int {
    now + 30000 - e.emitAt
  }

  predicate Near(e: Entry, r: Replica) {
    && Kindred(e, r) && |e.fp| == 64
    && Distance(e.fp, FingerprintOf(r.payload)) <= if Failed(r) then 22 else 14
  }

  predicate Adjacent(e: Entry, r: Replica, now: int) {
    && Kindred(e, r) && 0 <= Age(e, now) <= 500
    && 0 <= r.user < 32767 && e.minSlot != -32768 && e.minSlot - 3 <= r.user <= e.maxSlot + 3
  }

  predicate Rescued(e: Entry, r: Replica, now: int) {
    Kindred(e, r) && 0 <= Age(e, now) <= 30000 && Failed(r) && e.best.crcOk
  }

  predicate Akin(e: Entry, r: Replica, now: int) {
    Near(e, r) || Adjacent(e, r, now) || Rescued(e, r, now)
  }

  // i is the first cluster of the kind p.
  ghost predicate FirstOf(ring: seq<Entry>, p: Entry -> bool, i: nat) {
    i < |ring| && p(ring[i]) && forall k :: 0 <= k < i ==> !p(ring[k])
  }

  ghost predicate NoneOf(ring: seq<Entry>, p: Entry -> bool) {
    forall k :: 0 <= k < |ring| ==> !p(ring[k])
  }

  // A replica joins a cluster exactly when some live cluster is akin to it.
  lemma MatchIff(ring: seq<Entry>, r: Replica, now: int)
    ensures Match(ring, r, now) < |ring| <==> exists i :: 0 <= i < |ring| && Akin(ring[i], r, now)
  {
    TiersAre(r, now);
  }

  // It joins the first near cluster; if none is near, the first adjacent one; if none is
  // adjacent either, the first that rescues it.
  lemma MatchOrder(ring: seq<Entry>, r: Replica, now: int)
    requires Match(ring, r, now) < |ring|
    ensures var m := Match(ring, r, now);
      var near, adjacent := (e: Entry) => Near(e, r), (e: Entry) => Adjacent(e, r, now);
      || FirstOf(ring, near, m)
      || (NoneOf(ring, near) && FirstOf(ring, adjacent, m))
      || (NoneOf(ring, near) && NoneOf(ring, adjacent) && FirstOf(ring, (e: Entry) => Rescued(e, r, now), m))
  {
    TiersAre(r, now);
  }

  lemma TiersAre(r: Replica, now: int)
    ensures forall e :: Tier1(e, r, FingerprintOf(r.payload)) <==> Near(e, r)
    ensures SlotValid(r) ==> forall e :: Tier2(e, r, now) <==> Adjacent(e, r, now)
    ensures !SlotValid(r) ==> forall e :: !Adjacent(e, r, now)
    ensures CrcBad(r) ==> forall e :: Tier3(e, r, now) <==> Rescued(e, r, now)
    ensures !CrcBad(r) ==> forall e :: !Rescued(e, r, now)
  {}

  // ---- What an arrival does ----

  // The entry of a cluster of its own.
  predicate IsAlone(e: Entry, r: Replica, now: int) {
    && e.inUse && e.sf == r.sf && e.bw == r.bw && e.best == r && e.count == 1
    && e.fp == FingerprintOf(r.payload) && e.emitAt == now + 30000
    && e.minSlot == e.maxSlot == if 0 <= r.user < 32767 then r.user else -32768
  }

  // A cluster no older than 30 ms that holds failed replicas only.
  predicate Doubtful(e: Entry, r: Replica, now: int) {
    Kindred(e, r) && !e.best.crcOk && 0 <= Age(e, now) <= 30000
  }

  predicate FirstFree(ring: seq<Entry>, slot: nat) {
    slot < |ring| && !ring[slot].inUse && forall k :: 0 <= k < slot ==> ring[k].inUse
  }

  // A replica to which no cluster is akin opens its own in the first free slot.  Unless it
  // failed its CRC it also takes the doubtful clusters of its radio out of the ring; every
  // other cluster stays as it is.
  lemma OpensItsOwn(s: Run, r: Replica, now: int, slot: nat)
    requires ValidShape(s) && 14 <= |r.payload| <= 256 && FirstFree(s.ring, slot)
    requires forall i :: 0 <= i < |s.ring| ==> !Akin(s.ring[i], r, now)
    ensures var t := DoArrive(s, r, now);
      && t.arrivals == s.arrivals + [r] && t.emitted == s.emitted && t.dropped == s.dropped
      && |t.ring| == |t.members| == |s.ring|
      && IsAlone(t.ring[slot], r, now) && t.members[slot] == [|s.arrivals|]
      && forall k :: 0 <= k < |s.ring| && k != slot ==>
        if !Failed(r) && Doubtful(s.ring[k], r, now) then !t.ring[k].inUse
        else t.ring[k] == s.ring[k] && t.members[k] == s.members[k]
  {
    MatchIff(s.ring, r, now);
    var a := Logged(s, r);
    assert First(s.ring, (e: Entry) => !e.inUse, 0) == slot;
    SuppressClears(a, r, now, 0);
    SuppressKeepsRest(a, r, now, 0);
  }

  lemma {:induction false} SuppressKeepsRest(s: Run, r: Replica, now: int, i: nat)
    requires ValidShape(s) && i <= |s.ring|
    ensures var t := SuppressFrom(s, r, now, i);
      && t.arrivals == s.arrivals && t.emitted == s.emitted && t.dropped == s.dropped
      && forall k :: 0 <= k < |s.ring| && !Suppressible(s.ring[k], r, now) ==> t.members[k] == s.members[k]
    decreases |s.ring| - i
  {
    if i < |s.ring| {
      SuppressKeepsRest(if Suppressible(s.ring[i], r, now) then SuppressAt(s, i) else s, r, now, i + 1);
    }
  }

  predicate AllFar(ring: seq<Entry>, r: Replica) {
    forall i :: 0 <= i < |ring| && Kindred(ring[i], r) ==>
      |ring[i].fp| == 64 && Distance(ring[i].fp, FingerprintOf(r.payload)) > 14
  }

  // A good replica without a slot whose fingerprint is more than 14 bits from every live
  // cluster of its radio opens its own cluster whenever a slot is free.
  lemma FarReplicaOpensItsOwn(ring: seq<Entry>, actions: seq<Action>, r: Replica, now: int, slot: nat)
    requires Idle(ring) && 14 <= |r.payload| <= 256 && !Failed(r) && !(0 <= r.user < 32767)
    requires FirstFree(After(ring, actions).ring, slot) && AllFar(After(ring, actions).ring, r)
    ensures var s, t := After(ring, actions), After(ring, actions + [Arrive(r, now)]);
      && t.arrivals == s.arrivals + [r] && slot < |t.ring| == |t.members|
      && IsAlone(t.ring[slot], r, now) && t.members[slot] == [|s.arrivals|]
  {
    assert (actions + [Arrive(r, now)])[..|actions|] == actions;
    OpensItsOwn(After(ring, actions), r, now, slot);
  }

  // An accepted replica is lost exactly when no cluster is akin to it and no slot is free.
  lemma DroppedIff(s: Run, r: Replica, now: int)
    requires ValidShape(s) && 14 <= |r.payload| <= 256
    ensures var lost := (forall i :: 0 <= i < |s.ring| ==> s.ring[i].inUse && !Akin(s.ring[i], r, now));
      DoArrive(s, r, now).dropped == if lost then s.dropped + [|s.arrivals|] else s.dropped
  {
    MatchIff(s.ring, r, now);
    SuppressKeepsRest(Logged(s, r), r, now, 0);
  }

  // A replica shorter than 14 bytes or longer than 256 leaves no trace.
  lemma RefusedIff(s: Run, r: Replica, now: int)
    requires ValidShape(s)
    ensures DoArrive(s, r, now) == s <==> !(14 <= |r.payload| <= 256)
  {
    if Accepted(r) {
      SuppressKeepsRest(Logged(s, r), r, now, 0);
    }
  }
}
