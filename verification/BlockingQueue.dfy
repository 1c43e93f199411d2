/**
 The blocking queue as it is updated in place: the circular store and the flags that the
 mutex guards.  Each method is one critical section and is proved to take exactly one step
 of `QueueProtocol`, so what holds of every run there holds of the elements in the buffer,
 across its wrap and its growth.
 */
module BlockingQueue {
  import opened QueueProtocol
  import C = CircularQueue
  import L = FairLockProtocol

  // Steps that touch neither the store nor the flags.
  predicate ElsewhereOnly(a: Action) {
    a.Enter? || a.Granted? || a.Release? || a.Leave? || a.DropMutex? || a.CloseSignal?
  }

  lemma ElsewhereKeeps(q: Queue, a: Action)
    requires ElsewhereOnly(a)
    ensures var r := Do(q, a);
      && r.contents == q.contents && r.capacity == q.capacity && r.boundless == q.boundless && r.closed == q.closed
      && r.add.blocked == q.add.blocked && r.get.blocked == q.get.blocked
  {}

  // What a move does to the data and the flags.
  lemma MoveEffect(q: Queue, s: Side, e: L.Entry, w: Woken)
    ensures var r := DoMove(q, s, e, w);
      && r.capacity == q.capacity && r.boundless == q.boundless && r.closed == q.closed
      && r.add.blocked == q.add.blocked && r.get.blocked == q.get.blocked
    ensures s == Add && e in q.elements ==> DoMove(q, s, e, w).contents == q.contents + [q.elements[e]]
    ensures s == Get && q.contents != [] ==> (
      DoMove(q, s, e, w).contents == q.contents[1..] && DoMove(q, s, e, w).removed == q.removed + [q.contents[0]])
  {}

  // What the step does to the data and the flags.
  lemma TakeEffect(q: Queue, s: Side, e: L.Entry, growOk: bool)
    ensures var r := DoTakeMutex(q, s, e, growOk);
      && r.contents == q.contents && r.boundless == q.boundless && r.closed == q.closed
      && r.add.blocked == q.add.blocked && r.get.blocked == q.get.blocked
      && r.capacity == if s == Add && !q.closed && q.boundless && growOk && |q.contents| == q.capacity
                       then 2 * q.capacity else q.capacity
  {}

  // A caller with the mutex leaves a closed queue, a boundless one that it cannot grow, and
  // one that is full, or empty, if it does not wait; the first to find a queue full or empty
  // blocks weak callers, and those that find it so later wait.
  predicate NextIs(q: Queue, s: Side, async: bool, growOk: bool, phase: Phase) {
    var stuck := !q.closed && |q.contents| == if s == Add then q.capacity else 0;
    var grows, blocked := s == Add && q.boundless, if s == Add then q.add.blocked else q.get.blocked;
    && (phase == Leaving <==> q.closed || (stuck && if grows then !growOk else async && blocked))
    && (phase == Blocking <==> stuck && !grows && !blocked)
    && (phase == Waiting <==> stuck && !grows && !async && blocked)
  }

  lemma PhaseIsNext(q: Queue, s: Side, e: L.Entry, growOk: bool, phase: Phase)
    requires InPhase(DoTakeMutex(q, s, e, growOk), s, e, phase)
    ensures NextIs(q, s, e.weak, growOk, phase)
  {}

  class BlockingQueue {
    const store: C.CircularQueue
    const boundless: bool
    var closed: bool
    var addBlocked: bool      // add_lock_are_weak_locks_blocked
    var getBlocked: bool      // get_lock_are_weak_locks_blocked
    ghost var spec: Queue

    ghost predicate Stored(contents: seq<int>, capacity: nat)
      reads store, store.queue
    {
      store.Valid() && store.Contents() == contents && store.queue.Length == capacity
    }

    ghost predicate Valid()
      reads this, store, store.queue
    {
      && Stored(spec.contents, spec.capacity)
      && boundless == spec.boundless && closed == spec.closed
      && addBlocked == spec.add.blocked && getBlocked == spec.get.blocked
    }

    // blocking_queue_init
    constructor (capacity: nat)
      ensures Valid() && spec == Init(capacity)
    {
      store := new C.CircularQueue(capacity);
      boundless := capacity == 0;
      closed, addBlocked, getBlocked := false, false, false;
      spec := Init(capacity);
    }

    function Blocked(s: Side): bool
      reads this
    {
      if s == Add then addBlocked else getBlocked
    }

    // Where a caller that can move an element goes: weak callers of the other side may first
    // have to be let in again.
    function NextPhase(s: Side): Phase
      reads this
    {
      if Blocked(Other(s)) then Allowing else Moving
    }

    // The caller has locked the mutex; `phase` says what it does next.
    method TakeMutex(s: Side, async: bool, growOk: bool, ghost e: L.Entry) returns (phase: Phase)
      requires Valid() && e.weak == async
      modifies store, `spec
      ensures Valid() && spec == DoTakeMutex(old(spec), s, e, growOk) && InPhase(spec, s, e, phase)
      ensures NextIs(old(spec), s, async, growOk, phase)
    {
      if !closed && s == Add && boundless && store.size == store.queue.Length {
        phase := GrowOrLeave(growOk, e);
      } else {
        phase := Judge(s, async, growOk, e);
      }
      PhaseIsNext(old(spec), s, e, growOk, phase);
    }

    // Without growing the buffer.
    method Judge(s: Side, async: bool, growOk: bool, ghost e: L.Entry) returns (phase: Phase)
      requires Valid() && e.weak == async
      requires !(!closed && s == Add && boundless && store.size == store.queue.Length)
      modifies `spec
      ensures Valid() && spec == DoTakeMutex(old(spec), s, e, growOk) && InPhase(spec, s, e, phase)
    {
      var stuck := store.size == if s == Add then store.queue.Length else 0;
      phase := if closed then Leaving
               else if !stuck then NextPhase(s)
               else if !Blocked(s) then Blocking
               else if async then Leaving
               else Waiting;
      TakeEffect(spec, s, e, growOk);
      spec := DoTakeMutex(spec, s, e, growOk);
    }

    // An add has found a boundless queue full.
    method GrowOrLeave(growOk: bool, ghost e: L.Entry) returns (phase: Phase)
      requires Valid() && !closed && boundless && store.size == store.queue.Length
      modifies store, `spec
      ensures Valid() && spec == DoTakeMutex(old(spec), Add, e, growOk) && InPhase(spec, Add, e, phase)
    {
      TakeEffect(spec, Add, e, growOk);
      var ok := store.Grow(growOk);
      spec := DoTakeMutex(spec, Add, e, growOk);
      phase := if ok then NextPhase(Add) else Leaving;
    }

    // fair_lock_block_weak_locks has been called; then the caller leaves or waits.
    method SetBlocked(s: Side, async: bool, ghost e: L.Entry) returns (phase: Phase)
      requires Valid() && e.weak == async
      modifies `addBlocked, `getBlocked, `spec
      ensures Valid() && spec == DoBlockWeak(old(spec), s, e) && InPhase(spec, s, e, phase)
    {
      if s == Add {
        addBlocked := true;
      } else {
        getBlocked := true;
      }
      spec := DoBlockWeak(spec, s, e);
      phase := if async then Leaving else Waiting;
    }

    // The condition wait has returned, with the mutex locked again.
    method Resume(s: Side, ghost e: L.Entry) returns (phase: Phase)
      requires Valid()
      modifies `spec
      ensures Valid() && spec == DoResume(old(spec), s, e) && InPhase(spec, s, e, phase)
    {
      phase := if closed then Leaving else NextPhase(s);
      spec := DoResume(spec, s, e);
    }

    // fair_lock_allow_weak_locks has been called for the other side.
    method ClearBlocked(s: Side, ghost e: L.Entry)
      requires Valid()
      modifies `addBlocked, `getBlocked, `spec
      ensures Valid() && spec == DoAllowWeak(old(spec), s, e)
    {
      if s == Add {
        getBlocked := false;
      } else {
        addBlocked := false;
      }
      spec := DoAllowWeak(spec, s, e);
    }

    // Signal, put the element in, unlock the mutex; `w` is the waiter the signal wakes.
    method MoveIn(x: int, ghost e: L.Entry, ghost w: Woken)
      requires Valid() && QueueInv(spec) && InPhase(spec, Add, e, Moving)
      requires e in spec.elements && spec.elements[e] == x
      modifies store, store.queue, `spec
      ensures Valid() && spec == DoMove(old(spec), Add, e, w)
    {
      MoverIsReady(spec, Add, e);
      MoveEffect(spec, Add, e, w);
      Put(x, spec.contents, spec.capacity);
      spec := DoMove(spec, Add, e, w);
    }

    // Signal, take an element out, unlock the mutex.
    method MoveOut(ghost e: L.Entry, ghost w: Woken) returns (x: int)
      requires Valid() && QueueInv(spec) && InPhase(spec, Get, e, Moving)
      modifies store, `spec
      ensures Valid() && spec == DoMove(old(spec), Get, e, w)
      ensures spec.removed == old(spec).removed + [x]
    {
      MoverIsReady(spec, Get, e);
      MoveEffect(spec, Get, e, w);
      x := TakeOut(spec.contents, spec.capacity);
      spec := DoMove(spec, Get, e, w);
    }

    method Put(x: int, ghost contents: seq<int>, ghost capacity: nat)
      requires Stored(contents, capacity) && |contents| < capacity
      modifies store, store.queue
      ensures Stored(contents + [x], capacity) && store.queue == old(store.queue)
    {
      store.Enqueue(x);
    }

    method TakeOut(ghost contents: seq<int>, ghost capacity: nat) returns (x: int)
      requires Stored(contents, capacity) && contents != []
      modifies store
      ensures Stored(contents[1..], capacity) && store.queue == old(store.queue) && x == contents[0]
    {
      x := store.Dequeue();
      assert contents == [x] + store.Contents();
    }

    // The first critical section of blocking_queue_close
    method Close()
      requires Valid()
      modifies `closed, `spec
      ensures Valid() && spec == Do(old(spec), QueueProtocol.Close)
    {
      closed := true;
      spec := Do(spec, QueueProtocol.Close);
    }

    // In every run the elements in the buffer, from front to rear, are those put in and not
    // yet taken out, in the order they were put in.
    lemma BufferInOrder(capacity: nat, run: seq<Action>)
      requires Valid() && IsRun(capacity, run) && spec == After(capacity, run)
      ensures spec.added == spec.removed + store.Contents()
    {
      ElementsInOrder(capacity, run);
    }

    // Every other step leaves what the mutex guards as it is.
    ghost method Elsewhere(a: Action)
      requires Valid() && Enabled(spec, a) && ElsewhereOnly(a)
      modifies `spec
      ensures Valid() && spec == Do(old(spec), a)
    {
      ElsewhereKeeps(spec, a);
      spec := Do(spec, a);
    }
  }
}
