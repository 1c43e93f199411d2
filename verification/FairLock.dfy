/**
 The fair lock.  Each method is one critical section of the internal mutex and is
 proved to take exactly one step of the protocol in `FairLockProtocol`.
 */
module FairLock {
  import opened CondQueue
  import P = FairLockProtocol

  datatype Entered = Acquired | Blocked(entry: CondEntry) | Abandoned | OutOfMemory

  class FairLock {
    const lists: CondQueue
    var isLockAcquired: bool
    var waitingThreads: int
    var blockWeakLocks: bool
    ghost var spec: P.Lock  // the protocol state

    ghost predicate Valid()
      reads this, lists, lists.queue, lists.free
    {
      && lists.Valid()
      && lists.requests == spec.queue && isLockAcquired == spec.acquired
      && waitingThreads == spec.waiting && blockWeakLocks == spec.blockWeak
    }

    constructor ()
      ensures Valid() && spec == P.INIT
    {
      lists := new CondQueue();
      isLockAcquired, waitingThreads, blockWeakLocks := false, 0, false;
      spec := P.INIT;
    }

    // A new entry at the end of the queue, counted as waiting if there is memory for it.
    method Join(weak: bool, allocOk: bool, ghost request: P.Entry) returns (entry: CondEntry?)
      requires lists.Valid() && request.weak == weak
      modifies `waitingThreads, lists, lists.queue, lists.free
      ensures lists.Valid()
      ensures entry == null ==>
        !allocOk && lists.requests == old(lists.requests) && waitingThreads == old(waitingThreads)
      ensures entry != null ==>
        && lists.queue == old(lists.queue) + [entry] && lists.requests == old(lists.requests) + [request]
        && entry.request == request && waitingThreads == old(waitingThreads) + 1
    {
      waitingThreads := waitingThreads + 1;
      entry := lists.Enqueue(weak, allocOk, request);
      if entry == null {
        waitingThreads := waitingThreads - 1;
      }
    }

    // _fair_lock_lock up to its condition wait; `allocOk` is whether malloc succeeds
    method Request(weak: bool, allocOk: bool, ghost request: P.Entry) returns (r: Entered)
      requires Valid() && request.weak == weak
      modifies this, lists, lists.queue, lists.free
      ensures Valid()
      ensures r == OutOfMemory ==> spec == old(spec) && !allocOk
      ensures r != OutOfMemory ==> spec == P.DoRequest(old(spec), request)
      ensures r == Acquired ==> request in spec.holders
      ensures r == Abandoned <==> weak && old(blockWeakLocks)
      ensures r.Blocked? ==> lists.queue == old(lists.queue) + [r.entry] && r.entry.request == request
    {
      if weak && blockWeakLocks {
        return Abandoned;
      }
      if isLockAcquired || waitingThreads > 0 {
        var entry := Join(weak, allocOk, request);
        if entry == null {
          return OutOfMemory;
        }
        spec := P.DoRequest(spec, request);
        return Blocked(entry);
      }
      isLockAcquired := true;
      spec := P.DoRequest(spec, request);
      return Acquired;
    }

    // _fair_lock_lock after its condition wait has been signalled
    method Wake(entry: CondEntry) returns (acquired: bool)
      requires Valid() && P.Inv(spec) && entry.home == Caller
      requires if entry.abandoned then entry.request in spec.abandoned else entry.request in spec.handoff
      modifies this, lists, entry`next, entry`home
      ensures Valid() && spec == P.DoWake(old(spec), entry.request)
      ensures acquired <==> !entry.abandoned
      ensures acquired ==> entry.request in spec.holders
      ensures !acquired ==> entry.request.weak
    {
      P.InvApart(spec);
      lists.Release(entry);
      spec := P.DoWake(spec, entry.request);
      if entry.abandoned {
        return false;
      }
      waitingThreads := waitingThreads - 1;
      assert !isLockAcquired;
      isLockAcquired := true;
      return true;
    }

    // fair_lock_unlock; `woken` is the caller signalled, if any
    method Unlock(ghost holder: P.Entry) returns (ghost woken: CondEntry?)
      requires Valid()
      modifies this, lists, lists.queue`home
      ensures Valid() && spec == P.DoUnlock(old(spec), holder)
      ensures woken == null <==> old(spec).queue == []
      ensures woken != null ==> woken.home == Caller && !woken.abandoned && woken.request == old(spec).queue[0]
    {
      var entry := lists.Dequeue();
      woken := entry;
      isLockAcquired := false;
      spec := P.DoUnlock(spec, holder);
    }

    // The weak callers leave the queue.
    method DropWeakCallers()
      requires lists.Valid()
      modifies `blockWeakLocks, `waitingThreads, lists`front, lists`rear, lists`queue, lists`requests
      modifies lists.queue`next, lists.queue`abandoned, lists.queue`home
      ensures blockWeakLocks && lists.Valid() && lists.requests == P.Strong(old(lists.requests))
      ensures waitingThreads == old(waitingThreads) - (|old(lists.requests)| - |lists.requests|)
      ensures WeakMarked(old(lists.queue), old(lists.requests))
    {
      blockWeakLocks := true;
      var dropped := lists.AbandonWeak();
      waitingThreads := waitingThreads - dropped;
    }

    // fair_lock_block_weak_locks
    method BlockWeakLocks()
      requires Valid()
      modifies `blockWeakLocks, `spec, `waitingThreads, lists`front, lists`rear, lists`queue, lists`requests
      modifies lists.queue`next, lists.queue`abandoned, lists.queue`home
      ensures Valid() && spec == P.DoBlock(old(spec))
      ensures WeakMarked(old(lists.queue), old(spec).queue)
    {
      DropWeakCallers();
      spec := P.DoBlock(spec);
    }

    // fair_lock_allow_weak_locks
    method AllowWeakLocks()
      requires Valid()
      modifies this
      ensures Valid() && spec == P.Do(old(spec), P.Allow)
    {
      blockWeakLocks := false;
      spec := P.Do(spec, P.Allow);
    }
  }
}
