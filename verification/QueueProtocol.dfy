/**
 The blocking queue as a state machine over every interleaving of put, add, take,
 poll and close.  The two sides, adding and getting, each have a fair lock; the
 caller that holds a side's lock moves on through the phases below.  One action is
 one fair-lock step or one step under the queue's mutex.  A condition wait returns
 only after a signal, and a signal wakes one waiter of its choice, of either side.
 */
module QueueProtocol {
  import opened L = FairLockProtocol

  datatype Side = Add | Get

  datatype Phase =
    | AtMutex    // holds the side's lock, about to lock the mutex
    | Blocking   // under the mutex, about to block weak locks of its own side
    | Waiting    // in the condition wait
    | Signalled  // out of the wait set, about to lock the mutex again
    | Allowing   // under the mutex, about to allow weak locks of the other side
    | Moving     // under the mutex, about to signal and to move an element
    | Unlocking  // element moved, mutex unlocked, about to unlock the side's lock
    | Leaving    // under the mutex, returning without having moved an element

  datatype Port = Port(
    lock: Lock,                 // add_lock or get_lock
    blocked: bool,              // {add,get}_lock_are_weak_locks_blocked
    phases: map<Entry, Phase>   // the callers past the lock
  )

  datatype Mutex = Free | Held(side: Side, entry: Entry)

  datatype Queue = Queue(
    add: Port,
    get: Port,
    mutex: Mutex,
    closed: bool,
    contents: seq<int>,
    capacity: nat,
    boundless: bool,
    elements: map<Entry, int>,  // what each adding caller brings
    added: seq<int>,            // everything ever enqueued, in order
    removed: seq<int>           // everything ever dequeued, in order
  )

  datatype Woken = Nobody | Woken(side: Side, entry: Entry)

  datatype Action =
    | Enter(side: Side, entry: Entry, element: int)
    | Granted(side: Side, entry: Entry)
    | TakeMutex(side: Side, entry: Entry, growOk: bool)
    | BlockWeak(side: Side, entry: Entry)
    | Resume(side: Side, entry: Entry)
    | AllowWeak(side: Side, entry: Entry)
    | Move(side: Side, entry: Entry, woken: Woken)
    | Release(side: Side, entry: Entry)
    | Leave(side: Side, entry: Entry)
    | DropMutex(side: Side, entry: Entry)
    | Close
    | CloseSignal(woken: Woken)

  // blocking_queue_init; capacity zero asks for a boundless queue
  function Init(capacity: nat): Queue {
    var port := Port(L.INIT, false, map[]);
    Queue(port, port, Free, false, [], if capacity == 0 then 1 else capacity, capacity == 0, map[], [], [])
  }

  function Other(s: Side): Side {
    if s == Add then Get else Add
  }

  function PortOf(q: Queue, s: Side): Port {
    if s == Add then q.add else q.get
  }

  function WithPort(q: Queue, s: Side, p: Port): Queue {
    if s == Add then q.(add := p) else q.(get := p)
  }

  predicate InPhase(q: Queue, s: Side, e: Entry, phase: Phase) {
    e in PortOf(q, s).phases && PortOf(q, s).phases[e] == phase
  }

  function SetPhase(q: Queue, s: Side, e: Entry, phase: Phase): Queue {
    WithPort(q, s, PortOf(q, s).(phases := PortOf(q, s).phases[e := phase]))
  }

  // Nothing can be moved on this side: the queue is full, or empty.
  predicate Stuck(q: Queue, s: Side) {
    if s == Add then |q.contents| == q.capacity && !q.boundless else q.contents == []
  }

  // The assertion an element's move relies on.
  predicate Ready(q: Queue, s: Side) {
    if s == Add then |q.contents| < q.capacity else q.contents != []
  }

  predicate IsWaiter(q: Queue, w: Woken) {
    w.Woken? ==> InPhase(q, w.side, w.entry, Waiting)
  }

  ghost predicate SomeoneWaits(q: Queue) {
    exists s, e :: InPhase(q, s, e, Waiting)
  }

  // pthread_cond_signal wakes somebody if anybody waits.
  ghost predicate SignalChoice(q: Queue, w: Woken) {
    IsWaiter(q, w) && (w == Nobody ==> !SomeoneWaits(q))
  }

  function Signal(q: Queue, w: Woken): Queue {
    if w == Nobody then q else SetPhase(q, w.side, w.entry, Signalled)
  }

  ghost predicate Enabled(q: Queue, a: Action) {
    match a
    case Enter(s, e, _) => L.Enabled(PortOf(q, s).lock, L.Request(e)) && e !in q.elements
    case Granted(s, e) => L.Enabled(PortOf(q, s).lock, L.Wake(e))
    case TakeMutex(s, e, _) => InPhase(q, s, e, AtMutex) && q.mutex == Free
    case BlockWeak(s, e) => InPhase(q, s, e, Blocking)
    case Resume(s, e) => InPhase(q, s, e, Signalled) && q.mutex == Free
    case AllowWeak(s, e) => InPhase(q, s, e, Allowing)
    case Move(s, e, w) => InPhase(q, s, e, Moving) && SignalChoice(q, w)
    case Release(s, e) => InPhase(q, s, e, Unlocking)
    case Leave(s, e) => InPhase(q, s, e, Leaving)
    case DropMutex(s, e) => q.mutex == Held(s, e) && e !in PortOf(q, s).phases
    case Close => q.mutex == Free
    case CloseSignal(w) => q.closed && SignalChoice(q, w)
  }

  // A request is rejected, queued, or granted on the spot.
  function Requested(p: Port, e: Entry): Port {
    var lock := L.DoRequest(p.lock, e);
    p.(lock := lock, phases := if e in lock.holders then p.phases[e := AtMutex] else p.phases)
  }

  // The fair lock is handed over, or the caller finds its request abandoned.
  function Woke(p: Port, e: Entry): Port {
    p.(lock := L.DoWake(p.lock, e), phases := if e in p.lock.abandoned then p.phases else p.phases[e := AtMutex])
  }

  function DoEnter(q: Queue, s: Side, e: Entry, x: int): Queue {
    WithPort(q, s, Requested(PortOf(q, s), e)).(elements := q.elements[e := x])
  }

  function DoGranted(q: Queue, s: Side, e: Entry): Queue {
    WithPort(q, s, Woke(PortOf(q, s), e))
  }

  // The mutex is held and an element can be moved.
  function Proceed(q: Queue, s: Side, e: Entry): Queue {
    SetPhase(q.(mutex := Held(s, e)), s, e, if PortOf(q, Other(s)).blocked then Allowing else Moving)
  }

  function DoTakeMutex(q: Queue, s: Side, e: Entry, growOk: bool): Queue {
    if q.closed then SetPhase(q.(mutex := Held(s, e)), s, e, Leaving)
    else if Stuck(q, s) then
      if !PortOf(q, s).blocked then SetPhase(q.(mutex := Held(s, e)), s, e, Blocking)
      else if e.weak then SetPhase(q.(mutex := Held(s, e)), s, e, Leaving)
      else SetPhase(q, s, e, Waiting)
    else if s == Add && |q.contents| == q.capacity then
      if growOk then Proceed(q.(capacity := 2 * q.capacity), s, e)
      else SetPhase(q.(mutex := Held(s, e)), s, e, Leaving)
    else Proceed(q, s, e)
  }

  function DoBlockWeak(q: Queue, s: Side, e: Entry): Queue {
    var p := PortOf(q, s);
    var r := WithPort(q, s, p.(lock := L.DoBlock(p.lock), blocked := true));
    if e.weak then SetPhase(r, s, e, Leaving) else SetPhase(r, s, e, Waiting).(mutex := Free)
  }

  function DoResume(q: Queue, s: Side, e: Entry): Queue {
    if q.closed then SetPhase(q.(mutex := Held(s, e)), s, e, Leaving) else Proceed(q, s, e)
  }

  function DoAllowWeak(q: Queue, s: Side, e: Entry): Queue {
    var p := PortOf(q, Other(s));
    SetPhase(WithPort(q, Other(s), p.(lock := L.Do(p.lock, L.Allow), blocked := false)), s, e, Moving)
  }

  function DoMove(q: Queue, s: Side, e: Entry, w: Woken): Queue {
    var r := SetPhase(Signal(q, w), s, e, Unlocking).(mutex := Free);
    if s == Add then
      var x := if e in q.elements then q.elements[e] else 0;
      r.(contents := q.contents + [x], added := q.added + [x])
    else if q.contents == [] then r
    else r.(contents := q.contents[1..], removed := q.removed + [q.contents[0]])
  }

  function DoUnlockSide(q: Queue, s: Side, e: Entry): Queue {
    var p := PortOf(q, s);
    WithPort(q, s, p.(lock := L.DoUnlock(p.lock, e), phases := p.phases - {e}))
  }

  function Do(q: Queue, a: Action): Queue {
    match a
    case Enter(s, e, x) => DoEnter(q, s, e, x)
    case Granted(s, e) => DoGranted(q, s, e)
    case TakeMutex(s, e, growOk) => DoTakeMutex(q, s, e, growOk)
    case BlockWeak(s, e) => DoBlockWeak(q, s, e)
    case Resume(s, e) => DoResume(q, s, e)
    case AllowWeak(s, e) => DoAllowWeak(q, s, e)
    case Move(s, e, w) => DoMove(q, s, e, w)
    case Release(s, e) => DoUnlockSide(q, s, e)
    case Leave(s, e) => DoUnlockSide(q, s, e)
    case DropMutex(_, _) => q.(mutex := Free)
    case Close => q.(closed := true)
    case CloseSignal(w) => Signal(q, w)
  }

  // ---- What every reachable state satisfies ----

  ghost predicate PortInv(p: Port) {
    L.Inv(p.lock) && p.phases.Keys == p.lock.holders && p.blocked == p.lock.blockWeak
  }

  // At most one caller of a side is past its fair lock.
  ghost predicate Single(p: Port) {
    forall a, b :: a in p.phases && b in p.phases ==> a == b
  }

  predicate UnderMutex(phase: Phase) {
    phase == Blocking || phase == Allowing || phase == Moving || phase == Leaving
  }

  // What a caller's phase says about the queue.  A caller in the wait set has nothing
  // to move; one that was signalled has, unless the queue was closed.
  ghost predicate PhaseFits(q: Queue, s: Side, phase: Phase) {
    match phase
    case AtMutex => true
    case Blocking => Stuck(q, s) && !q.closed
    case Waiting => Stuck(q, s)
    case Signalled => q.closed || Ready(q, s)
    case Allowing => Ready(q, s) && !q.closed
    case Moving => Ready(q, s) && !q.closed && !PortOf(q, Other(s)).blocked
    case Unlocking => true
    case Leaving => true
  }

  ghost predicate CallerFits(q: Queue, s: Side, e: Entry)
    requires e in PortOf(q, s).phases
  {
    var phase := PortOf(q, s).phases[e];
    (UnderMutex(phase) <==> q.mutex == Held(s, e)) && PhaseFits(q, s, phase) && e in q.elements
  }

  // Weak callers are turned away only while there is nothing to move.
  ghost predicate BlockInv(q: Queue) {
    (q.add.blocked ==> Stuck(q, Add)) && (q.get.blocked ==> Stuck(q, Get))
  }

  ghost predicate DataInv(q: Queue) {
    q.added == q.removed + q.contents && |q.contents| <= q.capacity && q.capacity >= 1
  }

  ghost predicate CallersFit(q: Queue) {
    forall s, e :: e in PortOf(q, s).phases ==> CallerFits(q, s, e)
  }

  ghost predicate QueueInv(q: Queue) {
    Single(q.add) && Single(q.get) && BlockInv(q) && DataInv(q) && CallersFit(q)
  }

  ghost predicate Known(q: Queue) {
    && (q.mutex.Held? ==> q.mutex.entry in PortOf(q, q.mutex.side).lock.served)
    && (forall e :: e in q.add.lock.arrived || e in q.get.lock.arrived ==> e in q.elements)
  }

  ghost predicate Inv(q: Queue) {
    PortInv(q.add) && PortInv(q.get) && Known(q) && QueueInv(q)
  }

  // ---- The steps of a caller past its lock ----

  // A caller changes phase, and with it possibly who holds the mutex.
  lemma PhaseFitsSame(q: Queue, r: Queue, s: Side, phase: Phase)
    requires r.contents == q.contents && r.capacity == q.capacity && r.boundless == q.boundless && r.closed == q.closed
    requires r.add.blocked == q.add.blocked && r.get.blocked == q.get.blocked
    ensures PhaseFits(q, s, phase) == PhaseFits(r, s, phase)
  {}

  lemma OwnPhaseFits(q: Queue, s: Side, e: Entry, phase: Phase, m: Mutex)
    requires e in q.elements && PhaseFits(q, s, phase) && (UnderMutex(phase) <==> m == Held(s, e))
    ensures var r := SetPhase(q, s, e, phase).(mutex := m); e in PortOf(r, s).phases && CallerFits(r, s, e)
  {
    PhaseFitsSame(q, SetPhase(q, s, e, phase).(mutex := m), s, phase);
  }

  lemma OtherPhaseFits(q: Queue, s: Side, e: Entry, phase: Phase, m: Mutex, f: Entry)
    requires f in PortOf(q, Other(s)).phases && CallerFits(q, Other(s), f)
    requires (m == Free || m == Held(s, e)) && (q.mutex == Free || q.mutex == Held(s, e))
    ensures var r := SetPhase(q, s, e, phase).(mutex := m);
      f in PortOf(r, Other(s)).phases && CallerFits(r, Other(s), f)
  {
    PhaseFitsSame(q, SetPhase(q, s, e, phase).(mutex := m), Other(s), PortOf(q, Other(s)).phases[f]);
  }

  lemma PhaseChangeKeeps(q: Queue, s: Side, e: Entry, phase: Phase, m: Mutex)
    requires QueueInv(q) && e in PortOf(q, s).phases
    requires UnderMutex(phase) <==> m == Held(s, e)
    requires (m == Free || m == Held(s, e)) && (q.mutex == Free || q.mutex == Held(s, e))
    requires PhaseFits(q, s, phase)
    ensures QueueInv(SetPhase(q, s, e, phase).(mutex := m))
  {
    var r := SetPhase(q, s, e, phase).(mutex := m);
    forall t, f | f in PortOf(r, t).phases
      ensures CallerFits(r, t, f)
    {
      assert CallerFits(q, t, f) && CallerFits(q, s, e);
      if t == s {
        OwnPhaseFits(q, s, e, phase, m);
      } else {
        OtherPhaseFits(q, s, e, phase, m, f);
      }
    }
  }

  lemma ProceedKeeps(q: Queue, s: Side, e: Entry)
    requires QueueInv(q) && e in PortOf(q, s).phases && q.mutex == Free && Ready(q, s) && !q.closed
    ensures QueueInv(Proceed(q, s, e))
  {
    PhaseChangeKeeps(q, s, e, if PortOf(q, Other(s)).blocked then Allowing else Moving, Held(s, e));
  }

  lemma GrowKeeps(q: Queue)
    requires QueueInv(q) && q.boundless
    ensures QueueInv(q.(capacity := 2 * q.capacity))
  {
    var r := q.(capacity := 2 * q.capacity);
    forall t, f | f in PortOf(r, t).phases
      ensures CallerFits(r, t, f)
    {
      assert CallerFits(q, t, f);
    }
  }

  lemma TakeMutexKeeps(q: Queue, s: Side, e: Entry, growOk: bool)
    requires QueueInv(q) && Enabled(q, TakeMutex(s, e, growOk))
    ensures QueueInv(DoTakeMutex(q, s, e, growOk))
  {
    if q.closed || (Stuck(q, s) && e.weak && PortOf(q, s).blocked) {
      PhaseChangeKeeps(q, s, e, Leaving, Held(s, e));
    } else if Stuck(q, s) {
      if PortOf(q, s).blocked {
        PhaseChangeKeeps(q, s, e, Waiting, Free);
      } else {
        PhaseChangeKeeps(q, s, e, Blocking, Held(s, e));
      }
    } else if s == Add && |q.contents| == q.capacity {
      if growOk {
        GrowKeeps(q);
        ProceedKeeps(q.(capacity := 2 * q.capacity), s, e);
      } else {
        PhaseChangeKeeps(q, s, e, Leaving, Held(s, e));
      }
    } else {
      ProceedKeeps(q, s, e);
    }
  }

  lemma ResumeKeeps(q: Queue, s: Side, e: Entry)
    requires QueueInv(q) && Enabled(q, Resume(s, e))
    ensures QueueInv(DoResume(q, s, e))
  {
    assert CallerFits(q, s, e);
    if q.closed {
      PhaseChangeKeeps(q, s, e, Leaving, Held(s, e));
    } else {
      ProceedKeeps(q, s, e);
    }
  }

  // Changing a port's lock and its flag does not concern the phases.
  lemma RelockKeeps(q: Queue, s: Side, lock: Lock, blocked: bool)
    requires QueueInv(q) && (blocked ==> Stuck(q, s))
    requires blocked ==> forall f :: f in PortOf(q, Other(s)).phases ==> PortOf(q, Other(s)).phases[f] != Moving
    ensures QueueInv(WithPort(q, s, PortOf(q, s).(lock := lock, blocked := blocked)))
  {
    var r := WithPort(q, s, PortOf(q, s).(lock := lock, blocked := blocked));
    forall t, f | f in PortOf(r, t).phases
      ensures CallerFits(r, t, f)
    {
      assert CallerFits(q, t, f) && PortOf(r, t).phases == PortOf(q, t).phases;
      if t == s {
        assert PortOf(r, Other(t)) == PortOf(q, Other(t));
      } else {
        assert t == Other(s) && PortOf(r, s).blocked == blocked;
        assert blocked ==> PortOf(q, Other(s)).phases[f] != Moving;
      }
    }
  }

  lemma BlockWeakKeeps(q: Queue, s: Side, e: Entry)
    requires QueueInv(q) && Enabled(q, BlockWeak(s, e))
    ensures QueueInv(DoBlockWeak(q, s, e))
  {
    assert CallerFits(q, s, e);
    forall f | f in PortOf(q, Other(s)).phases
      ensures PortOf(q, Other(s)).phases[f] != Moving
    {
      assert CallerFits(q, Other(s), f);
    }
    RelockKeeps(q, s, L.DoBlock(PortOf(q, s).lock), true);
    var r := WithPort(q, s, PortOf(q, s).(lock := L.DoBlock(PortOf(q, s).lock), blocked := true));
    if e.weak {
      PhaseChangeKeeps(r, s, e, Leaving, Held(s, e));
    } else {
      PhaseChangeKeeps(r, s, e, Waiting, Free);
    }
  }

  lemma AllowWeakKeeps(q: Queue, s: Side, e: Entry)
    requires QueueInv(q) && Enabled(q, AllowWeak(s, e))
    ensures QueueInv(DoAllowWeak(q, s, e))
  {
    assert CallerFits(q, s, e);
    var p := PortOf(q, Other(s));
    RelockKeeps(q, Other(s), L.Do(p.lock, L.Allow), false);
    var r := WithPort(q, Other(s), p.(lock := L.Do(p.lock, L.Allow), blocked := false));
    PhaseChangeKeeps(r, s, e, Moving, Held(s, e));
  }

  // A signal sent by a moving caller can only reach the other side.
  lemma WakesOtherSide(q: Queue, s: Side, e: Entry, w: Woken)
    requires QueueInv(q) && Enabled(q, Move(s, e, w)) && w.Woken?
    ensures w.side == Other(s)
  {}

  lemma MoveKeepsData(q: Queue, s: Side, e: Entry, w: Woken)
    requires QueueInv(q) && Enabled(q, Move(s, e, w))
    ensures DataInv(DoMove(q, s, e, w))
  {
    assert CallerFits(q, s, e);
    if s == Add {
      var x := if e in q.elements then q.elements[e] else 0;
      assert q.removed + (q.contents + [x]) == q.added + [x];
    } else {
      assert q.removed + [q.contents[0]] + q.contents[1..] == q.added;
    }
  }

  lemma MoveKeepsPorts(q: Queue, s: Side, e: Entry, w: Woken)
    requires QueueInv(q) && Enabled(q, Move(s, e, w))
    ensures var r := DoMove(q, s, e, w);
      && PortOf(r, s).phases == PortOf(q, s).phases[e := Unlocking]
      && PortOf(r, Other(s)).phases.Keys == PortOf(q, Other(s)).phases.Keys
      && Single(r.add) && Single(r.get) && BlockInv(r)
  {
    assert CallerFits(q, s, e);
    if w.Woken? {
      WakesOtherSide(q, s, e, w);
    }
  }

  lemma MoverFits(q: Queue, s: Side, e: Entry, w: Woken)
    requires QueueInv(q) && Enabled(q, Move(s, e, w))
    ensures InPhase(DoMove(q, s, e, w), s, e, Unlocking) && CallerFits(DoMove(q, s, e, w), s, e)
  {
    MoveKeepsPorts(q, s, e, w);
    assert CallerFits(q, s, e);
  }

  // The other side's caller, who may have been woken.
  lemma BystanderFits(q: Queue, s: Side, e: Entry, w: Woken, f: Entry)
    requires QueueInv(q) && Enabled(q, Move(s, e, w)) && f in PortOf(q, Other(s)).phases
    ensures f in PortOf(DoMove(q, s, e, w), Other(s)).phases && CallerFits(DoMove(q, s, e, w), Other(s), f)
  {
    assert CallerFits(q, s, e) && CallerFits(q, Other(s), f);
    if w.Woken? {
      WakesOtherSide(q, s, e, w);
    }
    if PortOf(q, Other(s)).phases[f] == Waiting {
      assert InPhase(q, Other(s), f, Waiting);
    }
  }

  lemma MoveKeepsCallers(q: Queue, s: Side, e: Entry, w: Woken)
    requires QueueInv(q) && Enabled(q, Move(s, e, w))
    ensures CallersFit(DoMove(q, s, e, w))
  {
    var r := DoMove(q, s, e, w);
    MoveKeepsPorts(q, s, e, w);
    MoverFits(q, s, e, w);
    forall t, f | f in PortOf(r, t).phases
      ensures CallerFits(r, t, f)
    {
      if t != s {
        BystanderFits(q, s, e, w, f);
      }
    }
  }

  lemma MoveKeeps(q: Queue, s: Side, e: Entry, w: Woken)
    requires QueueInv(q) && Enabled(q, Move(s, e, w))
    ensures QueueInv(DoMove(q, s, e, w))
  {
    MoveKeepsData(q, s, e, w);
    MoveKeepsPorts(q, s, e, w);
    MoveKeepsCallers(q, s, e, w);
  }

  lemma UnlockSideKeeps(q: Queue, s: Side, e: Entry)
    requires QueueInv(q)
    ensures QueueInv(DoUnlockSide(q, s, e))
  {
    var r := DoUnlockSide(q, s, e);
    forall t, f | f in PortOf(r, t).phases
      ensures CallerFits(r, t, f)
    {
      assert CallerFits(q, t, f);
    }
  }

  // ---- Close, and the signals it sends ----

  lemma CloseKeeps(q: Queue)
    requires QueueInv(q) && q.mutex == Free
    ensures QueueInv(q.(closed := true))
  {
    var r := q.(closed := true);
    forall t, f | f in PortOf(r, t).phases
      ensures CallerFits(r, t, f)
    {
      assert CallerFits(q, t, f);
    }
  }

  lemma CloseSignalKeeps(q: Queue, w: Woken)
    requires QueueInv(q) && q.closed && IsWaiter(q, w)
    ensures QueueInv(Signal(q, w))
  {
    var r := Signal(q, w);
    forall t, f | f in PortOf(r, t).phases
      ensures CallerFits(r, t, f)
    {
      assert CallerFits(q, t, f);
    }
  }

  lemma DropMutexKeeps(q: Queue, s: Side, e: Entry)
    requires QueueInv(q) && Enabled(q, DropMutex(s, e))
    ensures QueueInv(q.(mutex := Free))
  {
    var r := q.(mutex := Free);
    forall t, f | f in PortOf(r, t).phases
      ensures CallerFits(r, t, f)
    {
      assert CallerFits(q, t, f);
    }
  }

  // A caller gets past its lock: nobody else of its side is.
  lemma ArriveKeeps(q: Queue, s: Side, e: Entry, lock: Lock, elements: map<Entry, int>)
    requires QueueInv(q) && PortOf(q, s).phases == map[] && q.mutex != Held(s, e) && e in elements
    requires forall f :: f in q.elements ==> f in elements
    ensures QueueInv(WithPort(q, s, PortOf(q, s).(lock := lock, phases := map[e := AtMutex])).(elements := elements))
  {
    var r := WithPort(q, s, PortOf(q, s).(lock := lock, phases := map[e := AtMutex])).(elements := elements);
    forall t, f | f in PortOf(r, t).phases
      ensures CallerFits(r, t, f)
    {
      if t != s {
        assert CallerFits(q, t, f);
      }
    }
  }

  // A fair-lock step of a caller that stays outside.
  lemma LockStepKeeps(q: Queue, s: Side, lock: Lock, elements: map<Entry, int>)
    requires QueueInv(q) && forall f :: f in q.elements ==> f in elements
    ensures QueueInv(WithPort(q, s, PortOf(q, s).(lock := lock)).(elements := elements))
  {
    var r := WithPort(q, s, PortOf(q, s).(lock := lock)).(elements := elements);
    forall t, f | f in PortOf(r, t).phases
      ensures CallerFits(r, t, f)
    {
      assert CallerFits(q, t, f) && PortOf(r, t).phases == PortOf(q, t).phases;
    }
  }

  // ---- Every step keeps the invariant ----

  // Either nobody gets past the lock, or the caller does and is alone there.
  ghost predicate LetsIn(p: Port, r: Port, e: Entry) {
    && r.blocked == p.blocked
    && (r.phases == p.phases || (p.phases == map[] && r.phases == map[e := AtMutex]))
    && (forall f :: f in p.lock.served ==> f in r.lock.served)
    && (forall f :: f in r.lock.arrived ==> f in p.lock.arrived || f == e)
    && e !in p.lock.served
  }

  lemma RequestedKeeps(p: Port, e: Entry)
    requires PortInv(p) && L.Enabled(p.lock, L.Request(e))
    ensures PortInv(Requested(p, e)) && LetsIn(p, Requested(p, e), e)
  {
    L.RequestKeepsInv(p.lock, e);
    L.InvApart(p.lock);
    assert e !in p.lock.arrived && e !in p.lock.holders;
    if e in L.DoRequest(p.lock, e).holders {
      assert p.phases.Keys == {} && p.phases == map[];
      assert p.phases[e := AtMutex] == map[e := AtMutex];
    }
  }

  lemma WokeKeeps(p: Port, e: Entry)
    requires PortInv(p) && e !in p.lock.abandoned && e in p.lock.handoff
    ensures PortInv(Woke(p, e)) && LetsIn(p, Woke(p, e), e)
  {
    L.WakeKeepsInv(p.lock, e);
    L.InvApart(p.lock);
    assert p.phases.Keys == {} && p.phases == map[];
    assert p.phases[e := AtMutex] == map[e := AtMutex];
  }

  // Ports that keep their locks, flags and callers keep their invariant.
  ghost predicate SamePort(p: Port, r: Port) {
    p.lock == r.lock && p.blocked == r.blocked && p.phases.Keys == r.phases.Keys
  }

  lemma LetInKeeps(q: Queue, s: Side, e: Entry, r: Port, elements: map<Entry, int>)
    requires QueueInv(q) && Known(q) && LetsIn(PortOf(q, s), r, e)
    requires e in elements && forall f :: f in q.elements ==> f in elements
    ensures QueueInv(WithPort(q, s, r).(elements := elements)) && Known(WithPort(q, s, r).(elements := elements))
  {
    var p := PortOf(q, s);
    if r.phases == p.phases {
      LockStepKeeps(q, s, r.lock, elements);
      assert r == p.(lock := r.lock);
    } else {
      ArriveKeeps(q, s, e, r.lock, elements);
      assert r == p.(lock := r.lock, phases := map[e := AtMutex]);
    }
  }

  ghost predicate SameCallers(q: Queue, r: Queue) {
    SamePort(q.add, r.add) && SamePort(q.get, r.get) && q.elements == r.elements
  }

  // The mutex goes to a caller past its lock, or stays where it is, or is given up.
  ghost predicate SamePorts(q: Queue, r: Queue) {
    && SameCallers(q, r)
    && (r.mutex.Held? ==> r.mutex == q.mutex || r.mutex.entry in PortOf(q, r.mutex.side).phases)
  }

  lemma SamePortsKeep(q: Queue, r: Queue)
    requires Inv(q) && QueueInv(r) && SamePorts(q, r)
    ensures Inv(r)
  {}

  lemma PhaseKeepsPort(p: Port, e: Entry, phase: Phase)
    requires e in p.phases
    ensures SamePort(p, p.(phases := p.phases[e := phase]))
  {
    assert p.phases[e := phase].Keys == p.phases.Keys;
  }

  // A caller's phase changes, and with it only capacity and mutex.
  lemma PhaseSamePorts(q: Queue, base: Queue, s: Side, e: Entry, phase: Phase)
    requires e in PortOf(q, s).phases && base.add == q.add && base.get == q.get && base.elements == q.elements
    requires base.mutex == q.mutex || base.mutex == Held(s, e)
    ensures SamePorts(q, SetPhase(base, s, e, phase))
  {
    PhaseKeepsPort(PortOf(q, s), e, phase);
  }

  lemma TakeMutexSamePorts(q: Queue, s: Side, e: Entry, growOk: bool)
    requires e in PortOf(q, s).phases
    ensures SamePorts(q, DoTakeMutex(q, s, e, growOk))
  {
    var held := q.(mutex := Held(s, e));
    var next := if PortOf(q, Other(s)).blocked then Allowing else Moving;
    if q.closed || (Stuck(q, s) && e.weak && PortOf(q, s).blocked) {
      PhaseSamePorts(q, held, s, e, Leaving);
    } else if Stuck(q, s) {
      PhaseSamePorts(q, held, s, e, Blocking);
      PhaseSamePorts(q, q, s, e, Waiting);
    } else if s == Add && |q.contents| == q.capacity {
      PhaseSamePorts(q, held.(capacity := 2 * q.capacity), s, e, next);
      PhaseSamePorts(q, held, s, e, Leaving);
    } else {
      PhaseSamePorts(q, held, s, e, next);
    }
  }

  lemma SetPhaseSameCallers(q: Queue, s: Side, e: Entry, phase: Phase)
    requires e in PortOf(q, s).phases
    ensures SameCallers(q, SetPhase(q, s, e, phase))
  {
    PhaseKeepsPort(PortOf(q, s), e, phase);
  }

  lemma SignalSameCallers(q: Queue, w: Woken)
    requires SignalChoice(q, w)
    ensures SameCallers(q, Signal(q, w))
  {
    if w != Nobody {
      SetPhaseSameCallers(q, w.side, w.entry, Signalled);
    }
  }

  lemma MoveSamePorts(q: Queue, s: Side, e: Entry, w: Woken)
    requires e in PortOf(q, s).phases && SignalChoice(q, w)
    ensures SamePorts(q, DoMove(q, s, e, w))
  {
    SignalSameCallers(q, w);
    var t := Signal(q, w);
    assert e in PortOf(t, s).phases.Keys;
    SetPhaseSameCallers(t, s, e, Unlocking);
  }

  lemma EnterKeepsInv(q: Queue, s: Side, e: Entry, x: int)
    requires Inv(q) && Enabled(q, Enter(s, e, x))
    ensures Inv(DoEnter(q, s, e, x))
  {
    RequestedKeeps(PortOf(q, s), e);
    LetInKeeps(q, s, e, Requested(PortOf(q, s), e), q.elements[e := x]);
  }

  lemma GrantedKeepsInv(q: Queue, s: Side, e: Entry)
    requires Inv(q) && Enabled(q, Granted(s, e))
    ensures Inv(DoGranted(q, s, e))
  {
    var p := PortOf(q, s);
    if e in p.lock.abandoned {
      L.WakeKeepsInv(p.lock, e);
      LockStepKeeps(q, s, L.DoWake(p.lock, e), q.elements);
      assert DoGranted(q, s, e) == WithPort(q, s, p.(lock := L.DoWake(p.lock, e))).(elements := q.elements);
    } else {
      L.InvApart(p.lock);
      WokeKeeps(p, e);
      LetInKeeps(q, s, e, Woke(p, e), q.elements);
      assert DoGranted(q, s, e) == WithPort(q, s, Woke(p, e)).(elements := q.elements);
    }
  }

  lemma TakeMutexKeepsInv(q: Queue, s: Side, e: Entry, growOk: bool)
    requires Inv(q) && Enabled(q, TakeMutex(s, e, growOk))
    ensures Inv(DoTakeMutex(q, s, e, growOk))
  {
    TakeMutexKeeps(q, s, e, growOk);
    TakeMutexSamePorts(q, s, e, growOk);
    SamePortsKeep(q, DoTakeMutex(q, s, e, growOk));
  }

  lemma ResumeKeepsInv(q: Queue, s: Side, e: Entry)
    requires Inv(q) && Enabled(q, Resume(s, e))
    ensures Inv(DoResume(q, s, e))
  {
    ResumeKeeps(q, s, e);
    SamePortsKeep(q, DoResume(q, s, e));
  }

  lemma MoveKeepsInv(q: Queue, s: Side, e: Entry, w: Woken)
    requires Inv(q) && Enabled(q, Move(s, e, w))
    ensures Inv(DoMove(q, s, e, w))
  {
    MoveKeeps(q, s, e, w);
    MoveSamePorts(q, s, e, w);
    SamePortsKeep(q, DoMove(q, s, e, w));
  }

  lemma UnlockSideKeepsInv(q: Queue, s: Side, e: Entry)
    requires Inv(q) && e in PortOf(q, s).phases
    ensures Inv(DoUnlockSide(q, s, e))
  {
    L.UnlockKeepsInv(PortOf(q, s).lock, e);
    UnlockSideKeeps(q, s, e);
  }

  lemma BlockWeakKeepsInv(q: Queue, s: Side, e: Entry)
    requires Inv(q) && Enabled(q, BlockWeak(s, e))
    ensures Inv(DoBlockWeak(q, s, e))
  {
    L.BlockKeepsInv(PortOf(q, s).lock);
    BlockWeakKeeps(q, s, e);
  }

  lemma AllowWeakPorts(q: Queue, s: Side, e: Entry)
    requires PortInv(q.add) && PortInv(q.get) && e in PortOf(q, s).phases
    ensures PortInv(DoAllowWeak(q, s, e).add) && PortInv(DoAllowWeak(q, s, e).get)
  {
    L.StepKeepsInv(PortOf(q, Other(s)).lock, L.Allow);
    PhaseKeepsPort(PortOf(q, s), e, Moving);
  }

  lemma AllowWeakKeepsInv(q: Queue, s: Side, e: Entry)
    requires Inv(q) && Enabled(q, AllowWeak(s, e))
    ensures Inv(DoAllowWeak(q, s, e))
  {
    AllowWeakPorts(q, s, e);
    AllowWeakKeeps(q, s, e);
  }

  lemma CloseKeepsInv(q: Queue, a: Action)
    requires Inv(q) && Enabled(q, a) && (a.DropMutex? || a.Close? || a.CloseSignal?)
    ensures Inv(Do(q, a))
  {
    match a
    case DropMutex(s, e) => DropMutexKeeps(q, s, e);
    case Close => CloseKeeps(q);
    case CloseSignal(w) => CloseSignalKeeps(q, w);
    SamePortsKeep(q, Do(q, a));
  }

  lemma StepKeepsInv(q: Queue, a: Action)
    requires Inv(q) && Enabled(q, a)
    ensures Inv(Do(q, a))
  {
    match a
    case Enter(s, e, x) => EnterKeepsInv(q, s, e, x);
    case Granted(s, e) => GrantedKeepsInv(q, s, e);
    case TakeMutex(s, e, growOk) => TakeMutexKeepsInv(q, s, e, growOk);
    case BlockWeak(s, e) => BlockWeakKeepsInv(q, s, e);
    case Resume(s, e) => ResumeKeepsInv(q, s, e);
    case AllowWeak(s, e) => AllowWeakKeepsInv(q, s, e);
    case Move(s, e, w) => MoveKeepsInv(q, s, e, w);
    case Release(s, e) => UnlockSideKeepsInv(q, s, e);
    case Leave(s, e) => UnlockSideKeepsInv(q, s, e);
    case DropMutex(_, _) => CloseKeepsInv(q, a);
    case Close => CloseKeepsInv(q, a);
    case CloseSignal(_) => CloseKeepsInv(q, a);
  }

  // ---- Runs ----

  function After(capacity: nat, run: seq<Action>): Queue {
    if run == [] then Init(capacity) else Do(After(capacity, run[..|run| - 1]), run[|run| - 1])
  }

  ghost predicate IsRun(capacity: nat, run: seq<Action>) {
    run == [] || (IsRun(capacity, run[..|run| - 1])
                  && Enabled(After(capacity, run[..|run| - 1]), run[|run| - 1]))
  }

  lemma {:induction false} RunKeepsInv(capacity: nat, run: seq<Action>)
    requires IsRun(capacity, run)
    ensures Inv(After(capacity, run))
  {
    if run != [] {
      RunKeepsInv(capacity, run[..|run| - 1]);
      StepKeepsInv(After(capacity, run[..|run| - 1]), run[|run| - 1]);
    }
  }

  // Elements leave in the order they entered; none is lost, duplicated or made up.
  lemma ElementsInOrder(capacity: nat, run: seq<Action>)
    requires IsRun(capacity, run)
    ensures var q := After(capacity, run); q.added == q.removed + q.contents
  {
    RunKeepsInv(capacity, run);
  }

  // The assertions after the two condition waits: unless the queue was closed, a put
  // that wakes up finds room and a take that wakes up finds an element.
  lemma WokenFindsWork(capacity: nat, run: seq<Action>, s: Side, e: Entry)
    requires IsRun(capacity, run) && Enabled(After(capacity, run), Resume(s, e)) && !After(capacity, run).closed
    ensures Ready(After(capacity, run), s)
  {
    RunKeepsInv(capacity, run);
    assert CallerFits(After(capacity, run), s, e);
  }

  // The assertions in `enqueue` and `dequeue`; and nothing moves in a closed queue.
  lemma MoveFindsWork(capacity: nat, run: seq<Action>, s: Side, e: Entry)
    requires IsRun(capacity, run) && InPhase(After(capacity, run), s, e, Moving)
    ensures Ready(After(capacity, run), s) && !After(capacity, run).closed
  {
    RunKeepsInv(capacity, run);
    assert CallerFits(After(capacity, run), s, e);
  }

  // The same of a single state.
  lemma MoverIsReady(q: Queue, s: Side, e: Entry)
    requires QueueInv(q) && InPhase(q, s, e, Moving)
    ensures Ready(q, s) && e in q.elements
  {
    assert CallerFits(q, s, e);
  }

  // One condition variable serves both sides, but a signal never wakes the sender's side.
  lemma SignalReachesOtherSide(capacity: nat, run: seq<Action>, s: Side, e: Entry, w: Woken)
    requires IsRun(capacity, run) && Enabled(After(capacity, run), Move(s, e, w)) && w.Woken?
    ensures w.side == Other(s)
  {
    RunKeepsInv(capacity, run);
    WakesOtherSide(After(capacity, run), s, e, w);
  }

  // Nobody is left in the wait set while there is something for it to do.
  lemma NoLostWakeup(capacity: nat, run: seq<Action>, s: Side, e: Entry)
    requires IsRun(capacity, run) && InPhase(After(capacity, run), s, e, Waiting)
    ensures Stuck(After(capacity, run), s)
  {
    RunKeepsInv(capacity, run);
    assert CallerFits(After(capacity, run), s, e);
  }

  // A non-blocking call is turned away at the fair lock only when the queue is full, or empty.
  lemma TurnedAwayOnlyWhenStuck(capacity: nat, run: seq<Action>, s: Side)
    requires IsRun(capacity, run) && PortOf(After(capacity, run), s).lock.blockWeak
    ensures Stuck(After(capacity, run), s)
  {
    RunKeepsInv(capacity, run);
  }

  // At most one caller of each side is past its fair lock, and at most one caller of
  // either side is under the mutex.
  lemma MutualExclusion(capacity: nat, run: seq<Action>, s: Side, e: Entry, t: Side, f: Entry)
    requires IsRun(capacity, run)
    requires e in PortOf(After(capacity, run), s).phases && f in PortOf(After(capacity, run), t).phases
    ensures s == t ==> e == f
    ensures var q := After(capacity, run);
      UnderMutex(PortOf(q, s).phases[e]) && UnderMutex(PortOf(q, t).phases[f]) ==> s == t && e == f
  {
    RunKeepsInv(capacity, run);
    assert CallerFits(After(capacity, run), s, e);
    assert CallerFits(After(capacity, run), t, f);
  }

  // Blocking callers of each side are served in the order they asked.
  lemma CallersInArrivalOrder(capacity: nat, run: seq<Action>, s: Side)
    requires IsRun(capacity, run)
    ensures L.StrongInOrder(PortOf(After(capacity, run), s).lock)
  {
    RunKeepsInv(capacity, run);
    L.InvStrongInOrder(PortOf(After(capacity, run), s).lock);
  }

  // Once the queue is closed its contents never change again.
  lemma ClosedIsFinal(capacity: nat, run: seq<Action>, a: Action)
    requires IsRun(capacity, run) && After(capacity, run).closed && Enabled(After(capacity, run), a)
    ensures var q, r := After(capacity, run), Do(After(capacity, run), a);
      r.closed && r.contents == q.contents && r.added == q.added && r.removed == q.removed
  {
    if a.Move? {
      MoveFindsWork(capacity, run, a.side, a.entry);
    } else {
      OnlyMovesMove(After(capacity, run), a);
    }
  }

  // What a move changes, and closing.
  predicate SameData(q: Queue, r: Queue) {
    r.contents == q.contents && r.added == q.added && r.removed == q.removed && (q.closed ==> r.closed)
  }

  lemma TakeMutexKeepsData(q: Queue, s: Side, e: Entry, growOk: bool)
    ensures SameData(q, DoTakeMutex(q, s, e, growOk))
  {}

  lemma WeakStepsKeepData(q: Queue, s: Side, e: Entry)
    ensures SameData(q, DoBlockWeak(q, s, e)) && SameData(q, DoAllowWeak(q, s, e))
    ensures SameData(q, DoUnlockSide(q, s, e)) && SameData(q, DoResume(q, s, e))
  {}

  // Only a move touches the elements, and nothing opens a closed queue.
  lemma OnlyMovesMove(q: Queue, a: Action)
    requires Enabled(q, a) && !a.Move?
    ensures SameData(q, Do(q, a))
  {
    match a
    case TakeMutex(s, e, growOk) => TakeMutexKeepsData(q, s, e, growOk);
    case BlockWeak(s, e) => WeakStepsKeepData(q, s, e);
    case AllowWeak(s, e) => WeakStepsKeepData(q, s, e);
    case Resume(s, e) => WeakStepsKeepData(q, s, e);
    case Release(s, e) => WeakStepsKeepData(q, s, e);
    case Leave(s, e) => WeakStepsKeepData(q, s, e);
    case _ =>
  }

  lemma TakeMutexBringsNone(q: Queue, s: Side, e: Entry, growOk: bool)
    ensures DoTakeMutex(q, s, e, growOk).elements == q.elements
  {}

  lemma MoveBringsNone(q: Queue, s: Side, e: Entry, w: Woken)
    ensures DoMove(q, s, e, w).elements == q.elements
  {}

  lemma WeakStepsBringNone(q: Queue, s: Side, e: Entry)
    ensures DoBlockWeak(q, s, e).elements == q.elements && DoAllowWeak(q, s, e).elements == q.elements
  {}

  lemma OnlyEnterBringsElements(q: Queue, a: Action)
    ensures Do(q, a).elements == if a.Enter? then q.elements[a.entry := a.element] else q.elements
  {
    match a
    case TakeMutex(s, e, growOk) => TakeMutexBringsNone(q, s, e, growOk);
    case Move(s, e, w) => MoveBringsNone(q, s, e, w);
    case BlockWeak(s, e) => WeakStepsBringNone(q, s, e);
    case AllowWeak(s, e) => WeakStepsBringNone(q, s, e);
    case _ =>
  }

  // What an adding caller enqueues is what it was called with.
  lemma {:induction false} ElementIsTheArgument(capacity: nat, run: seq<Action>, e: Entry)
    requires IsRun(capacity, run) && e in After(capacity, run).elements
    ensures exists s :: Enter(s, e, After(capacity, run).elements[e]) in run
  {
    var init, a := run[..|run| - 1], run[|run| - 1];
    var q := After(capacity, init);
    OnlyEnterBringsElements(q, a);
    if a.Enter? && a.entry == e {
      assert Enter(a.side, e, After(capacity, run).elements[e]) == a;
      assert a in run;
    } else {
      ElementIsTheArgument(capacity, init, e);
      var s :| Enter(s, e, q.elements[e]) in init;
      assert Enter(s, e, q.elements[e]) in run;
    }
  }

  lemma AddAppendsItsElement(capacity: nat, run: seq<Action>, e: Entry, w: Woken)
    requires IsRun(capacity, run) && Enabled(After(capacity, run), Move(Add, e, w))
    ensures var q := After(capacity, run);
      e in q.elements && Do(q, Move(Add, e, w)).contents == q.contents + [q.elements[e]]
  {
    RunKeepsInv(capacity, run);
    assert CallerFits(After(capacity, run), Add, e);
  }
}
