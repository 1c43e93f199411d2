/**
 The fair lock as a state machine.  One action is one critical section of the
 lock's internal mutex; a blocked caller's critical section is split at its
 condition wait into `Request` and `Wake`.  The machine runs every interleaving;
 a condition wait returns only after a signal.
 */
module FairLockProtocol {

  // A lock request: the caller's ticket and whether it may be abandoned.
  datatype Entry = Entry(ticket: nat, weak: bool)

  datatype Lock = Lock(
    queue: seq<Entry>,      // cond_queue_front .. cond_queue_rear
    acquired: bool,         // is_lock_acquired
    waiting: int,           // waiting_threads
    blockWeak: bool,        // block_weak_locks
    handoff: seq<Entry>,    // dequeued and signalled, not yet awake
    abandoned: set<Entry>,  // signalled with their abandoned flag set, not yet awake
    holders: set<Entry>,    // callers that hold the lock
    arrived: seq<Entry>,    // every request not turned away at the door, in order
    served: seq<Entry>,     // every request granted the lock, in order
    gone: set<Entry>        // every request abandoned so far
  )

  datatype Action = Request(entry: Entry) | Wake(entry: Entry) | Unlock(entry: Entry) | Block | Allow

  const INIT := Lock([], false, 0, false, [], {}, {}, [], [], {})

  // The entries of `s` that are not in `out`, in order.
  function Without(s: seq<Entry>, out: set<Entry>): seq<Entry> {
    if s == [] then []
    else Without(s[..|s| - 1], out) + (if s[|s| - 1] in out then [] else [s[|s| - 1]])
  }

  function Strong(s: seq<Entry>): seq<Entry> {
    if s == [] then []
    else Strong(s[..|s| - 1]) + (if s[|s| - 1].weak then [] else [s[|s| - 1]])
  }

  function Weak(s: seq<Entry>): set<Entry> {
    set e | e in s && e.weak
  }

  predicate Enabled(l: Lock, a: Action) {
    match a
    case Request(e) => forall x :: x in l.arrived ==> x.ticket != e.ticket
    case Wake(e) => e in l.abandoned || e in l.handoff
    case Unlock(e) => e in l.holders
    case Block => true
    case Allow => true
  }

  // _fair_lock_lock up to its condition wait
  function DoRequest(l: Lock, e: Entry): Lock {
    if e.weak && l.blockWeak then l
    else if l.acquired || l.waiting > 0 then
      l.(waiting := l.waiting + 1, queue := l.queue + [e], arrived := l.arrived + [e])
    else
      l.(acquired := true, holders := l.holders + {e}, arrived := l.arrived + [e], served := l.served + [e])
  }

  // _fair_lock_lock after its condition wait
  function DoWake(l: Lock, e: Entry): Lock {
    if e in l.abandoned then l.(abandoned := l.abandoned - {e})
    else
      l.(handoff := Without(l.handoff, {e}), waiting := l.waiting - 1, acquired := true,
         holders := l.holders + {e}, served := l.served + [e])
  }

  // fair_lock_unlock
  function DoUnlock(l: Lock, e: Entry): Lock {
    var released := l.(acquired := false, holders := l.holders - {e});
    if l.queue == [] then released
    else released.(queue := l.queue[1..], handoff := l.handoff + [l.queue[0]])
  }

  // fair_lock_block_weak_locks, with abandone_weak_locks
  function DoBlock(l: Lock): Lock {
    l.(blockWeak := true, queue := Strong(l.queue), waiting := l.waiting - (|l.queue| - |Strong(l.queue)|),
       abandoned := l.abandoned + Weak(l.queue), gone := l.gone + Weak(l.queue))
  }

  function Do(l: Lock, a: Action): Lock {
    match a
    case Request(e) => DoRequest(l, e)
    case Wake(e) => DoWake(l, e)
    case Unlock(e) => DoUnlock(l, e)
    case Block => DoBlock(l)
    case Allow => l.(blockWeak := false)
  }

  // ---- What every reachable state satisfies ----

  ghost predicate DistinctTickets(s: seq<Entry>) {
    forall i, j :: 0 <= i < j < |s| ==> s[i].ticket != s[j].ticket
  }

  // Those arrived and not abandoned are, in arrival order, the ones served, then a
  // pending hand-off, then the queue.
  ghost predicate Fifo(l: Lock) {
    l.served + l.handoff + l.queue == Without(l.arrived, l.gone)
  }

  ghost predicate Exclusive(l: Lock) {
    && (forall a, b :: a in l.holders && b in l.holders ==> a == b)
    && (l.acquired <==> l.holders != {})
    && (forall a :: a in l.holders ==> a in l.served)
    && |l.handoff| <= 1
    && (l.handoff != [] ==> l.holders == {})
  }

  // A waiting caller always has somebody who will wake it.
  ghost predicate NoLostWakeup(l: Lock) {
    && l.waiting == |l.queue| + |l.handoff|
    && (l.queue != [] ==> l.acquired || l.handoff != [])
  }

  ghost predicate OnlyWeakAbandoned(l: Lock) {
    && l.abandoned <= l.gone
    && (forall e :: e in l.gone ==> e.weak && e in l.arrived)
    && (l.blockWeak ==> forall e :: e in l.queue ==> !e.weak)
  }

  ghost predicate Inv(l: Lock) {
    DistinctTickets(l.arrived) && Fifo(l) && Exclusive(l) && NoLostWakeup(l) && OnlyWeakAbandoned(l)
  }

  lemma WithoutSnoc(s: seq<Entry>, e: Entry, out: set<Entry>)
    ensures Without(s + [e], out) == Without(s, out) + (if e in out then [] else [e])
  {
    assert (s + [e])[..|s|] == s;
  }

  lemma {:induction false} WithoutAppend(a: seq<Entry>, b: seq<Entry>, out: set<Entry>)
    ensures Without(a + b, out) == Without(a, out) + Without(b, out)
  {
    if b == [] {
      assert a + b == a;
    } else {
      var init, e := b[..|b| - 1], b[|b| - 1];
      assert a + b == (a + init) + [e];
      WithoutSnoc(a + init, e, out);
      WithoutAppend(a, init, out);
    }
  }

  lemma {:induction false} WithoutTwice(s: seq<Entry>, p: set<Entry>, q: set<Entry>)
    ensures Without(Without(s, p), q) == Without(s, p + q)
  {
    if s != [] {
      var init, e := s[..|s| - 1], s[|s| - 1];
      WithoutTwice(init, p, q);
      if e in p {
        assert Without(s, p) == Without(init, p);
      } else {
        WithoutSnoc(Without(init, p), e, q);
      }
    }
  }

  lemma {:induction false} WithoutDisjoint(s: seq<Entry>, out: set<Entry>)
    requires forall e :: e in s ==> e !in out
    ensures Without(s, out) == s
  {
    if s != [] {
      WithoutDisjoint(s[..|s| - 1], out);
    }
  }

  // Dropping the weak entries of a queue from it leaves the strong ones.
  lemma {:induction false} WithoutWeak(s: seq<Entry>, out: set<Entry>)
    requires forall e :: e in s ==> (e in out <==> e.weak)
    ensures Without(s, out) == Strong(s)
  {
    if s != [] {
      WithoutWeak(s[..|s| - 1], out);
    }
  }

  lemma {:induction false} WithoutIn(s: seq<Entry>, out: set<Entry>, e: Entry)
    ensures e in Without(s, out) <==> e in s && e !in out
  {
    if s != [] {
      WithoutIn(s[..|s| - 1], out, e);
    }
  }

  lemma {:induction false} WithoutDistinct(s: seq<Entry>, out: set<Entry>)
    requires DistinctTickets(s)
    ensures DistinctTickets(Without(s, out))
  {
    if s != [] {
      var init, e := s[..|s| - 1], s[|s| - 1];
      WithoutDistinct(init, out);
      var w := Without(init, out);
      forall i | 0 <= i < |w|
        ensures w[i].ticket != e.ticket
      {
        WithoutIn(init, out, w[i]);
      }
    }
  }

  lemma ArrivalKeepsFifo(l: Lock, e: Entry)
    requires Inv(l) && Enabled(l, Request(e))
    ensures DistinctTickets(l.arrived + [e])
    ensures Without(l.arrived + [e], l.gone) == l.served + l.handoff + l.queue + [e]
  {
    WithoutSnoc(l.arrived, e, l.gone);
    forall i, j | 0 <= i < j < |l.arrived + [e]|
      ensures (l.arrived + [e])[i].ticket != (l.arrived + [e])[j].ticket
    {
      assert l.arrived[i] in l.arrived;
    }
  }

  // The caller has to wait.
  lemma QueuedKeepsInv(l: Lock, e: Entry)
    requires Inv(l) && Enabled(l, Request(e)) && !(e.weak && l.blockWeak) && (l.acquired || l.waiting > 0)
    ensures Inv(DoRequest(l, e))
  {
    var m := DoRequest(l, e);
    ArrivalKeepsFifo(l, e);
    assert m.served + m.handoff + m.queue == l.served + l.handoff + l.queue + [e];
  }

  // The caller gets the lock at once.
  lemma GrantedKeepsInv(l: Lock, e: Entry)
    requires Inv(l) && Enabled(l, Request(e)) && !(e.weak && l.blockWeak) && !l.acquired && l.waiting <= 0
    ensures Inv(DoRequest(l, e))
  {
    var m := DoRequest(l, e);
    ArrivalKeepsFifo(l, e);
    assert l.handoff == [] && l.queue == [];
    assert m.served + m.handoff + m.queue == l.served + l.handoff + l.queue + [e];
  }

  lemma RequestKeepsInv(l: Lock, e: Entry)
    requires Inv(l) && Enabled(l, Request(e))
    ensures Inv(DoRequest(l, e))
  {
    if e.weak && l.blockWeak {
    } else if l.acquired || l.waiting > 0 {
      QueuedKeepsInv(l, e);
    } else {
      GrantedKeepsInv(l, e);
    }
  }

  lemma WakeKeepsInv(l: Lock, e: Entry)
    requires Inv(l) && Enabled(l, Wake(e))
    ensures Inv(DoWake(l, e))
  {
    if e !in l.abandoned {
      assert l.handoff == [e];
      assert Without(l.handoff, {e}) == [];
      assert l.served + [e] + [] + l.queue == l.served + l.handoff + l.queue;
    }
  }

  lemma UnlockKeepsInv(l: Lock, e: Entry)
    requires Inv(l) && Enabled(l, Unlock(e))
    ensures Inv(DoUnlock(l, e))
  {
    if l.queue != [] {
      assert l.served + (l.handoff + [l.queue[0]]) + l.queue[1..] == l.served + l.handoff + l.queue;
    }
  }

  // The callers being served or handed the lock are not the weak ones in the queue.
  lemma ServedApartFromQueue(l: Lock)
    requires Inv(l)
    ensures forall e :: e in l.served + l.handoff ==> e !in Weak(l.queue)
  {
    var ahead := l.served + l.handoff;
    var kept := ahead + l.queue;
    WithoutDistinct(l.arrived, l.gone);
    forall e | e in ahead
      ensures e !in Weak(l.queue)
    {
      var i :| 0 <= i < |ahead| && ahead[i] == e;
      assert kept[i] == e;
      forall j | 0 <= j < |l.queue|
        ensures l.queue[j] != e
      {
        assert kept[|ahead| + j] == l.queue[j];
      }
    }
  }

  lemma WeakHaveArrived(l: Lock)
    requires Inv(l)
    ensures forall e :: e in Weak(l.queue) ==> e in l.arrived
  {
    forall e | e in Weak(l.queue)
      ensures e in l.arrived
    {
      assert e in l.served + l.handoff + l.queue;
      WithoutIn(l.arrived, l.gone, e);
    }
  }

  lemma BlockKeepsInv(l: Lock)
    requires Inv(l)
    ensures Inv(DoBlock(l))
  {
    var w := Weak(l.queue);
    WithoutTwice(l.arrived, l.gone, w);
    WithoutAppend(l.served + l.handoff, l.queue, w);
    ServedApartFromQueue(l);
    WithoutDisjoint(l.served + l.handoff, w);
    WithoutWeak(l.queue, w);
    StrongIsStrong(l.queue);
    WeakHaveArrived(l);
  }

  lemma {:induction false} StrongIsStrong(s: seq<Entry>)
    ensures |Strong(s)| <= |s|
    ensures forall e :: e in Strong(s) <==> e in s && !e.weak
  {
    if s != [] {
      StrongIsStrong(s[..|s| - 1]);
    }
  }

  lemma StepKeepsInv(l: Lock, a: Action)
    requires Inv(l) && Enabled(l, a)
    ensures Inv(Do(l, a))
  {
    match a
    case Request(e) => RequestKeepsInv(l, e);
    case Wake(e) => WakeKeepsInv(l, e);
    case Unlock(e) => UnlockKeepsInv(l, e);
    case Block => BlockKeepsInv(l);
    case Allow =>
  }

  // The queue, the pending hand-off and the abandoned requests have nothing in common.
  ghost predicate Apart(l: Lock) {
    && DistinctTickets(l.queue)
    && (forall e :: e in l.queue ==> e !in l.handoff && e !in l.abandoned)
    && (forall e :: e in l.handoff ==> e !in l.abandoned && e !in l.served)
    && |l.handoff| <= 1
  }

  lemma InvApart(l: Lock)
    requires Inv(l)
    ensures Apart(l)
    ensures forall e :: e in l.served || e in l.handoff ==> e in l.arrived
  {
    var kept := l.served + l.handoff + l.queue;
    WithoutDistinct(l.arrived, l.gone);
    var n, m := |l.served|, |l.served + l.handoff|;
    assert forall i :: 0 <= i < |l.queue| ==> kept[m + i] == l.queue[i];
    assert forall i :: 0 <= i < |l.handoff| ==> kept[n + i] == l.handoff[i];
    assert forall i :: 0 <= i < |l.served| ==> kept[i] == l.served[i];
    forall e | e in kept
      ensures e !in l.gone && e in l.arrived
    {
      WithoutIn(l.arrived, l.gone, e);
    }
  }

  // ---- Runs ----

  ghost predicate IsRun(actions: seq<Action>) {
    actions == [] || (IsRun(actions[..|actions| - 1])
                      && Enabled(After(actions[..|actions| - 1]), actions[|actions| - 1]))
  }

  // The state after a sequence of actions.
  function After(actions: seq<Action>): Lock {
    if actions == [] then INIT else Do(After(actions[..|actions| - 1]), actions[|actions| - 1])
  }

  lemma {:induction false} RunKeepsInv(actions: seq<Action>)
    requires IsRun(actions)
    ensures Inv(After(actions))
  {
    if actions != [] {
      RunKeepsInv(actions[..|actions| - 1]);
      StepKeepsInv(After(actions[..|actions| - 1]), actions[|actions| - 1]);
    }
  }

  lemma {:induction false} StrongWithout(s: seq<Entry>, out: set<Entry>)
    requires forall e :: e in out ==> e.weak
    ensures Strong(Without(s, out)) == Strong(s)
  {
    if s != [] {
      var init, e := s[..|s| - 1], s[|s| - 1];
      StrongWithout(init, out);
      if e in out {
        assert Without(s, out) == Without(init, out);
      } else {
        StrongSnoc(Without(init, out), e);
      }
    }
  }

  lemma StrongSnoc(s: seq<Entry>, e: Entry)
    ensures Strong(s + [e]) == Strong(s) + (if e.weak then [] else [e])
  {
    assert (s + [e])[..|s|] == s;
  }

  lemma StrongPrefix(s: seq<Entry>, k: nat)
    requires k < |s|
    ensures Strong(s[..k + 1]) == Strong(s[..k]) + (if s[k].weak then [] else [s[k]])
  {
    assert s[..k + 1][..k] == s[..k];
  }

  lemma {:induction false} StrongAppend(a: seq<Entry>, b: seq<Entry>)
    ensures Strong(a + b) == Strong(a) + Strong(b)
  {
    if b == [] {
      assert a + b == a;
    } else {
      var init, e := b[..|b| - 1], b[|b| - 1];
      assert a + b == (a + init) + [e];
      StrongSnoc(a + init, e);
      StrongAppend(a, init);
    }
  }

  // Strong requests are served, handed off and queued in the order they came, and none is
  // ever abandoned.
  ghost predicate StrongInOrder(l: Lock) {
    && Strong(l.arrived) == Strong(l.served) + Strong(l.handoff) + Strong(l.queue)
    && forall e :: e in l.gone ==> e.weak
  }

  lemma InvStrongInOrder(l: Lock)
    requires Inv(l)
    ensures StrongInOrder(l)
  {
    StrongWithout(l.arrived, l.gone);
    StrongAppend(l.served + l.handoff, l.queue);
    StrongAppend(l.served, l.handoff);
  }

  lemma StrongCallersInArrivalOrder(actions: seq<Action>)
    requires IsRun(actions)
    ensures StrongInOrder(After(actions))
  {
    RunKeepsInv(actions);
    InvStrongInOrder(After(actions));
  }

  // ---- Every abandoned caller is told, once ----

  lemma PlacesApart(l: Lock, e: Entry)
    requires Inv(l)
    ensures e in l.served || e in l.handoff || e in l.queue ==> e !in l.gone
    ensures e in l.queue ==> e !in l.served
  {
    var kept := l.served + l.handoff + l.queue;
    WithoutIn(l.arrived, l.gone, e);
    WithoutDistinct(l.arrived, l.gone);
    if e in kept {
      assert e in Without(l.arrived, l.gone);
    }
    forall i, j | 0 <= i < |l.served| && 0 <= j < |l.queue|
      ensures l.served[i] != l.queue[j]
    {
      assert kept[i] == l.served[i] && kept[|l.served + l.handoff| + j] == l.queue[j];
    }
  }

  // Whether the caller has woken up, and what that says.
  ghost predicate AwakeFits(l: Lock, e: Entry, awake: bool) {
    && (awake ==> e in l.served || (e in l.gone && e !in l.abandoned))
    && (!awake && e in l.gone ==> e in l.abandoned)
  }

  lemma StepAwakeFits(l: Lock, a: Action, e: Entry, awake: bool)
    requires Inv(l) && Enabled(l, a) && AwakeFits(l, e, awake)
    ensures AwakeFits(Do(l, a), e, awake || a == Wake(e))
  {
    PlacesApart(l, e);
    if a == Wake(e) && e in l.abandoned {
      assert e in l.gone;
    }
  }

  lemma {:induction false} RunAwakeFits(actions: seq<Action>, e: Entry)
    requires IsRun(actions)
    ensures AwakeFits(After(actions), e, Wake(e) in actions)
  {
    if actions != [] {
      var init, a := actions[..|actions| - 1], actions[|actions| - 1];
      RunAwakeFits(init, e);
      RunKeepsInv(init);
      StepAwakeFits(After(init), a, e, Wake(e) in init);
      assert actions == init + [a];
    }
  }

  // An abandoned caller is signalled until it has woken up, and not after.
  lemma AbandonedUntilAwake(actions: seq<Action>, e: Entry)
    requires IsRun(actions)
    ensures e in After(actions).abandoned <==> e in After(actions).gone && Wake(e) !in actions
  {
    RunKeepsInv(actions);
    RunAwakeFits(actions, e);
    PlacesApart(After(actions), e);
  }
}
