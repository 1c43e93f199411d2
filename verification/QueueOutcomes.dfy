/**
 How calls of the blocking queue end, over every run: who may leave without having moved
 an element, how many elements a caller moves, and where each step under the mutex leads.
 */
module QueueOutcomes {
  import L = FairLockProtocol
  import opened QueueProtocol

  type Entry = L.Entry

  // Full, or empty, in the plain sense.
  predicate NothingToDo(q: Queue, s: Side) {
    if s == Add then |q.contents| == q.capacity else |q.contents| == 0
  }

  // The caller may return without having moved an element: the queue is closed, or the
  // call is one that does not wait, or a boundless queue could not be made larger.
  predicate MayLeave(q: Queue, s: Side, e: Entry) {
    || q.closed
    || (e.weak && NothingToDo(q, s) && !(s == Add && q.boundless))
    || (s == Add && q.boundless && |q.contents| == q.capacity)
  }

  // Only calls that wait are in the wait set.
  ghost predicate ReasonFits(q: Queue, s: Side, e: Entry, phase: Phase) {
    match phase
    case Leaving => MayLeave(q, s, e)
    case Waiting => !e.weak
    case Signalled => !e.weak
    case _ => true
  }

  ghost predicate Reasons(q: Queue) {
    forall s, e :: e in PortOf(q, s).phases ==> ReasonFits(q, s, e, PortOf(q, s).phases[e])
  }

  // ---- Who changes phase ----

  // The caller whose step it is.
  predicate IsActor(a: Action, s: Side, e: Entry) {
    !a.Close? && !a.CloseSignal? && a.side == s && a.entry == e
  }

  // Another caller keeps its phase, or is signalled.
  predicate Undisturbed(q: Queue, r: Queue, s: Side, e: Entry) {
    e in PortOf(r, s).phases ==>
      && e in PortOf(q, s).phases
      && (PortOf(r, s).phases[e] == PortOf(q, s).phases[e]
          || (PortOf(q, s).phases[e] == Waiting && PortOf(r, s).phases[e] == Signalled))
  }

  lemma SetPhaseUndisturbed(q: Queue, s: Side, e: Entry, phase: Phase, t: Side, f: Entry)
    requires t != s || f != e
    ensures Undisturbed(q, SetPhase(q, s, e, phase), t, f)
  {}

  lemma TakeMutexUndisturbed(q: Queue, s: Side, e: Entry, growOk: bool, t: Side, f: Entry)
    requires t != s || f != e
    ensures Undisturbed(q, DoTakeMutex(q, s, e, growOk), t, f)
  {}

  lemma SignalUndisturbed(q: Queue, w: Woken, t: Side, f: Entry)
    requires IsWaiter(q, w)
    ensures Undisturbed(q, Signal(q, w), t, f)
  {}

  lemma MoveUndisturbed(q: Queue, s: Side, e: Entry, w: Woken, t: Side, f: Entry)
    requires IsWaiter(q, w) && (t != s || f != e)
    ensures Undisturbed(q, DoMove(q, s, e, w), t, f)
  {
    SignalUndisturbed(q, w, t, f);
    SetPhaseUndisturbed(Signal(q, w), s, e, Unlocking, t, f);
  }

  lemma LockStepsUndisturbed(q: Queue, s: Side, e: Entry, x: int, t: Side, f: Entry)
    requires t != s || f != e
    ensures Undisturbed(q, DoEnter(q, s, e, x), t, f) && Undisturbed(q, DoGranted(q, s, e), t, f)
    ensures Undisturbed(q, DoUnlockSide(q, s, e), t, f)
  {}

  lemma FlagStepsUndisturbed(q: Queue, s: Side, e: Entry, t: Side, f: Entry)
    requires t != s || f != e
    ensures Undisturbed(q, DoBlockWeak(q, s, e), t, f) && Undisturbed(q, DoAllowWeak(q, s, e), t, f)
    ensures Undisturbed(q, DoResume(q, s, e), t, f)
  {}

  lemma OthersUndisturbed(q: Queue, a: Action, t: Side, f: Entry)
    requires Enabled(q, a) && !IsActor(a, t, f)
    ensures Undisturbed(q, Do(q, a), t, f)
  {
    match a
    case Enter(s, e, x) => LockStepsUndisturbed(q, s, e, x, t, f);
    case Granted(s, e) => LockStepsUndisturbed(q, s, e, 0, t, f);
    case TakeMutex(s, e, growOk) => TakeMutexUndisturbed(q, s, e, growOk, t, f);
    case BlockWeak(s, e) => FlagStepsUndisturbed(q, s, e, t, f);
    case Resume(s, e) => FlagStepsUndisturbed(q, s, e, t, f);
    case AllowWeak(s, e) => FlagStepsUndisturbed(q, s, e, t, f);
    case Move(s, e, w) => MoveUndisturbed(q, s, e, w, t, f);
    case Release(s, e) => LockStepsUndisturbed(q, s, e, 0, t, f);
    case Leave(s, e) => LockStepsUndisturbed(q, s, e, 0, t, f);
    case DropMutex(_, _) =>
    case Close =>
    case CloseSignal(w) => SignalUndisturbed(q, w, t, f);
  }

  // ---- Where a caller's own step leads ----

  // Whether an element can be moved now, after growing if need be.
  predicate CanMove(q: Queue, s: Side, growOk: bool) {
    if s == Get then |q.contents| > 0
    else |q.contents| < q.capacity || (q.boundless && growOk)
  }

  // With the mutex taken, exactly this happens: a closed queue is left; an element is moved
  // if it can be, after weak callers of the other side have been let in if they are not; a
  // call that does not wait, and one that found no memory, leaves; the others wait.
  lemma TakeMutexLeads(q: Queue, s: Side, e: Entry, growOk: bool)
    requires QueueInv(q) && InPhase(q, s, e, AtMutex) && q.mutex == Free
    ensures var r := DoTakeMutex(q, s, e, growOk); var own, other := PortOf(q, s).blocked, PortOf(q, Other(s)).blocked;
      && e in PortOf(r, s).phases
      && PortOf(r, s).phases[e] ==
         (if q.closed then Leaving
          else if CanMove(q, s, growOk) then (if other then Allowing else Moving)
          else if s == Add && q.boundless then Leaving
          else if !own then Blocking
          else if e.weak then Leaving
          else Waiting)
      && (r.mutex == Free <==> PortOf(r, s).phases[e] == Waiting)
      && r.contents == q.contents
      && r.capacity == if s == Add && !q.closed && q.boundless && growOk && |q.contents| == q.capacity
                       then 2 * q.capacity else q.capacity
  {}

  // Blocking weak locks, and waking up.
  lemma OthersLead(q: Queue, s: Side, e: Entry)
    ensures InPhase(DoBlockWeak(q, s, e), s, e, if e.weak then Leaving else Waiting)
    ensures PortOf(DoBlockWeak(q, s, e), s).blocked && (e.weak || DoBlockWeak(q, s, e).mutex == Free)
    ensures InPhase(DoResume(q, s, e), s, e,
              if q.closed then Leaving else if PortOf(q, Other(s)).blocked then Allowing else Moving)
    ensures DoResume(q, s, e).mutex == Held(s, e)
    ensures InPhase(DoAllowWeak(q, s, e), s, e, Moving) && !PortOf(DoAllowWeak(q, s, e), Other(s)).blocked
  {}

  // ---- Leaving is justified ----

  lemma TakeMutexReason(q: Queue, s: Side, e: Entry, growOk: bool)
    requires QueueInv(q) && InPhase(q, s, e, AtMutex) && q.mutex == Free
    ensures var r := DoTakeMutex(q, s, e, growOk); ReasonFits(r, s, e, PortOf(r, s).phases[e])
  {
    TakeMutexLeads(q, s, e, growOk);
    TakeMutexKeepsFlags(q, s, e, growOk);
  }

  lemma TakeMutexKeepsFlags(q: Queue, s: Side, e: Entry, growOk: bool)
    ensures var r := DoTakeMutex(q, s, e, growOk); r.closed == q.closed && r.boundless == q.boundless
  {}

  lemma BlockWeakReason(q: Queue, s: Side, e: Entry)
    requires QueueInv(q) && InPhase(q, s, e, Blocking)
    ensures var r := DoBlockWeak(q, s, e); ReasonFits(r, s, e, PortOf(r, s).phases[e])
  {
    BlockerIsStuck(q, s, e);
    OthersLead(q, s, e);
  }

  lemma ActorReason(q: Queue, a: Action)
    requires Inv(q) && Reasons(q) && Enabled(q, a) && !a.Close? && !a.CloseSignal?
    requires a.entry in PortOf(Do(q, a), a.side).phases
    ensures ReasonFits(Do(q, a), a.side, a.entry, PortOf(Do(q, a), a.side).phases[a.entry])
  {
    var s, e := a.side, a.entry;
    match a
    case TakeMutex(_, _, growOk) => TakeMutexReason(q, s, e, growOk);
    case BlockWeak(_, _) => BlockWeakReason(q, s, e);
    case Resume(_, _) => OthersLead(q, s, e);
    case AllowWeak(_, _) => OthersLead(q, s, e);
    case Move(_, _, w) => MoveKeepsPorts(q, s, e, w);
    case Enter(_, _, x) => NewcomerPhase(q, a);
    case Granted(_, _) => NewcomerPhase(q, a);
    case _ =>
  }

  lemma ServedNotGone(l: L.Lock, e: Entry)
    requires L.Inv(l) && e in l.served
    ensures e !in l.abandoned && e !in l.handoff
  {
    L.InvApart(l);
    assert e in l.served + l.handoff + l.queue;
    L.WithoutIn(l.arrived, l.gone, e);
  }

  lemma PastLockIsServed(q: Queue, s: Side, e: Entry)
    requires Inv(q) && e in PortOf(q, s).phases
    ensures e in PortOf(q, s).lock.served
  {
    assert e in PortOf(q, s).phases.Keys;
  }

  // Who enters, or wakes up at the lock, is not past it yet, nor ever was.
  lemma NewcomerOutside(q: Queue, a: Action)
    requires Inv(q) && Enabled(q, a) && (a.Enter? || a.Granted?)
    ensures a.entry !in PortOf(q, a.side).phases && a.entry !in PortOf(q, a.side).lock.served
  {
    var l := PortOf(q, a.side).lock;
    L.InvApart(l);
    if a.entry in l.served {
      ServedNotGone(l, a.entry);
    } else if a.entry in PortOf(q, a.side).phases {
      PastLockIsServed(q, a.side, a.entry);
    }
  }

  // Who gets past the lock is about to lock the mutex.
  lemma NewcomerPhase(q: Queue, a: Action)
    requires Inv(q) && Enabled(q, a) && (a.Enter? || a.Granted?)
    requires a.entry in PortOf(Do(q, a), a.side).phases
    ensures InPhase(Do(q, a), a.side, a.entry, AtMutex)
  {
    NewcomerOutside(q, a);
  }

  lemma OnlyHolderMoves(q: Queue, a: Action, t: Side, f: Entry)
    requires Inv(q) && Enabled(q, a) && a.Move? && q.mutex == Held(t, f)
    ensures IsActor(a, t, f)
  {
    assert CallerFits(q, a.side, a.entry);
  }

  // Nothing that matters to a leaving caller changes while it holds the mutex.
  lemma LeaverKeepsReason(q: Queue, a: Action, t: Side, f: Entry)
    requires Inv(q) && Reasons(q) && Enabled(q, a) && !IsActor(a, t, f)
    requires InPhase(q, t, f, Leaving)
    ensures MayLeave(Do(q, a), t, f)
  {
    assert CallerFits(q, t, f) && q.mutex == Held(t, f);
    assert ReasonFits(q, t, f, Leaving);
    if a.Move? {
      OnlyHolderMoves(q, a, t, f);
    } else {
      OnlyMovesMove(q, a);
      KeepsCapacity(q, a);
    }
  }

  lemma KeepsCapacity(q: Queue, a: Action)
    requires Enabled(q, a) && !a.TakeMutex?
    ensures Do(q, a).capacity == q.capacity && Do(q, a).boundless == q.boundless
  {
    if a.Move? {
      MoveKeepsCapacity(q, a.side, a.entry, a.woken);
    }
  }

  lemma MoveKeepsCapacity(q: Queue, s: Side, e: Entry, w: Woken)
    ensures var r := DoMove(q, s, e, w); r.capacity == q.capacity && r.boundless == q.boundless
  {}

  lemma StepKeepsReasons(q: Queue, a: Action)
    requires Inv(q) && Reasons(q) && Enabled(q, a)
    ensures Reasons(Do(q, a))
  {
    var r := Do(q, a);
    forall t, f | f in PortOf(r, t).phases
      ensures ReasonFits(r, t, f, PortOf(r, t).phases[f])
    {
      if IsActor(a, t, f) {
        ActorReason(q, a);
      } else {
        OtherReason(q, a, t, f);
      }
    }
  }

  lemma OtherReason(q: Queue, a: Action, t: Side, f: Entry)
    requires Inv(q) && Reasons(q) && Enabled(q, a) && !IsActor(a, t, f) && f in PortOf(Do(q, a), t).phases
    ensures ReasonFits(Do(q, a), t, f, PortOf(Do(q, a), t).phases[f])
  {
    OthersUndisturbed(q, a, t, f);
    assert ReasonFits(q, t, f, PortOf(q, t).phases[f]);
    if PortOf(q, t).phases[f] == Leaving {
      LeaverKeepsReason(q, a, t, f);
    }
  }

  lemma {:induction false} RunKeepsReasons(capacity: nat, run: seq<Action>)
    requires IsRun(capacity, run)
    ensures Reasons(After(capacity, run))
  {
    if run != [] {
      var init := run[..|run| - 1];
      RunKeepsReasons(capacity, init);
      RunKeepsInv(capacity, init);
      StepKeepsReasons(After(capacity, init), run[|run| - 1]);
    }
  }

  // A caller that leaves without having moved an element found the queue closed, or does
  // not wait and found it full, or empty, or found a boundless queue full.
  lemma LeavesOnlyWithReason(capacity: nat, run: seq<Action>, s: Side, e: Entry)
    requires IsRun(capacity, run) && InPhase(After(capacity, run), s, e, Leaving)
    ensures var q := After(capacity, run);
      || q.closed
      || (e.weak && !(s == Add && q.boundless) && |q.contents| == if s == Add then q.capacity else 0)
      || (s == Add && q.boundless && |q.contents| == q.capacity)
  {
    RunKeepsReasons(capacity, run);
    assert ReasonFits(After(capacity, run), s, e, Leaving);
  }

  // And a boundless queue that is open was found full by a call whose growth failed.
  lemma {:induction false} LeavesBoundlessOutOfMemory(capacity: nat, run: seq<Action>, e: Entry)
    requires IsRun(capacity, run) && InPhase(After(capacity, run), Add, e, Leaving)
    requires After(capacity, run).boundless && !After(capacity, run).closed
    ensures TakeMutex(Add, e, false) in run
  {
    var init, a := run[..|run| - 1], run[|run| - 1];
    var q := After(capacity, init);
    StaysOpen(q, a);
    if IsActor(a, Add, e) {
      RunKeepsInv(capacity, init);
      RunKeepsReasons(capacity, init);
      BoundlessLeaver(q, a, e);
      assert a in run;
    } else {
      OthersUndisturbed(q, a, Add, e);
      LeavesBoundlessOutOfMemory(capacity, init, e);
    }
  }

  lemma StaysOpen(q: Queue, a: Action)
    requires Enabled(q, a)
    ensures Do(q, a).boundless == q.boundless && (q.closed ==> Do(q, a).closed)
  {
    if a.Move? {
      MoveKeepsCapacity(q, a.side, a.entry, a.woken);
      MoveKeepsClosed(q, a.side, a.entry, a.woken);
    } else if a.TakeMutex? {
      TakeMutexKeepsFlags(q, a.side, a.entry, a.growOk);
    } else {
      KeepsCapacity(q, a);
      OnlyMovesMove(q, a);
    }
  }

  lemma MoveKeepsClosed(q: Queue, s: Side, e: Entry, w: Woken)
    ensures DoMove(q, s, e, w).closed == q.closed
  {}

  lemma BlockerIsStuck(q: Queue, s: Side, e: Entry)
    requires QueueInv(q) && InPhase(q, s, e, Blocking)
    ensures NothingToDo(q, s) && !(s == Add && q.boundless)
  {
    assert CallerFits(q, s, e);
  }

  lemma BoundlessLeaver(q: Queue, a: Action, e: Entry)
    requires Inv(q) && Reasons(q) && Enabled(q, a) && IsActor(a, Add, e) && q.boundless && !q.closed
    requires InPhase(Do(q, a), Add, e, Leaving)
    ensures a == TakeMutex(Add, e, false)
  {
    match a
    case TakeMutex(_, _, growOk) => TakeMutexLeads(q, Add, e, growOk);
    case BlockWeak(_, _) => BlockerIsStuck(q, Add, e);
    case Resume(_, _) => OthersLead(q, Add, e);
    case AllowWeak(_, _) => OthersLead(q, Add, e);
    case Move(_, _, w) => MoveKeepsPorts(q, Add, e, w);
    case Enter(_, _, x) => NewcomerPhase(q, a);
    case Granted(_, _) => NewcomerPhase(q, a);
    case _ =>
  }

  // In an open queue a call that waits never leaves empty-handed, unless a boundless queue
  // has no memory to grow.
  lemma StrongMovesOrWaits(capacity: nat, run: seq<Action>, s: Side, e: Entry)
    requires IsRun(capacity, run) && !After(capacity, run).closed && !e.weak
    requires s == Get || !After(capacity, run).boundless
    ensures !InPhase(After(capacity, run), s, e, Leaving)
  {
    if InPhase(After(capacity, run), s, e, Leaving) {
      LeavesOnlyWithReason(capacity, run, s, e);
    }
  }

  // A queue is closed exactly when it has been closed.
  lemma {:induction false} ClosedIff(capacity: nat, run: seq<Action>)
    requires IsRun(capacity, run)
    ensures After(capacity, run).closed <==> Close in run
  {
    if run != [] {
      var init, a := run[..|run| - 1], run[|run| - 1];
      ClosedIff(capacity, init);
      assert run == init + [a];
      CloseCloses(After(capacity, init), a);
    }
  }

  lemma CloseCloses(q: Queue, a: Action)
    ensures Do(q, a).closed == (q.closed || a.Close?)
  {
    match a
    case TakeMutex(s, e, growOk) => TakeMutexKeepsClosed(q, s, e, growOk);
    case BlockWeak(s, e) => WeakKeepsClosed(q, s, e);
    case AllowWeak(s, e) => WeakKeepsClosed(q, s, e);
    case Move(s, e, w) => MoveKeepsClosed(q, s, e, w);
    case _ =>
  }

  lemma TakeMutexKeepsClosed(q: Queue, s: Side, e: Entry, growOk: bool)
    ensures DoTakeMutex(q, s, e, growOk).closed == q.closed
  {}

  lemma WeakKeepsClosed(q: Queue, s: Side, e: Entry)
    ensures DoBlockWeak(q, s, e).closed == DoAllowWeak(q, s, e).closed == q.closed
  {}

  // ---- How many elements a caller moves ----

  function Moves(run: seq<Action>, s: Side, e: Entry): nat {
    if run == [] then 0
    else
      var a := run[|run| - 1];
      Moves(run[..|run| - 1], s, e) + if a.Move? && a.side == s && a.entry == e then 1 else 0
  }

  // A caller that has moved an element is unlocking or gone, and has moved one.
  ghost predicate MovesFit(q: Queue, s: Side, e: Entry, moves: nat) {
    && moves <= 1
    && (e !in PortOf(q, s).lock.served ==> moves == 0)
    && (e in PortOf(q, s).phases ==> moves == if PortOf(q, s).phases[e] == Unlocking then 1 else 0)
  }

  predicate ServedGrows(q: Queue, r: Queue, s: Side) {
    PortOf(q, s).lock.served <= PortOf(r, s).lock.served
  }

  lemma TakeMutexServed(q: Queue, s: Side, e: Entry, growOk: bool, t: Side)
    ensures ServedGrows(q, DoTakeMutex(q, s, e, growOk), t)
  {}

  lemma MoveServed(q: Queue, s: Side, e: Entry, w: Woken, t: Side)
    ensures ServedGrows(q, DoMove(q, s, e, w), t)
  {}

  lemma ServedOnlyGrows(q: Queue, a: Action, t: Side)
    ensures ServedGrows(q, Do(q, a), t)
  {
    match a
    case TakeMutex(s, e, growOk) => TakeMutexServed(q, s, e, growOk, t);
    case Move(s, e, w) => MoveServed(q, s, e, w, t);
    case _ =>
  }

  // The actor's phase after its step, as far as unlocking is concerned.
  lemma ActorUnlocking(q: Queue, a: Action)
    requires Inv(q) && Enabled(q, a) && !a.Close? && !a.CloseSignal?
    requires a.entry in PortOf(Do(q, a), a.side).phases
    ensures PortOf(Do(q, a), a.side).phases[a.entry] == Unlocking <==> a.Move?
    ensures a.Move? ==> a.entry in PortOf(q, a.side).phases && PortOf(q, a.side).phases[a.entry] == Moving
    ensures !a.Move? && a.entry in PortOf(q, a.side).phases ==> PortOf(q, a.side).phases[a.entry] != Unlocking
  {
    var s, e := a.side, a.entry;
    match a
    case TakeMutex(_, _, growOk) => TakeMutexLeads(q, s, e, growOk);
    case BlockWeak(_, _) => OthersLead(q, s, e);
    case Resume(_, _) => OthersLead(q, s, e);
    case AllowWeak(_, _) => OthersLead(q, s, e);
    case Move(_, _, w) => MoveKeepsPorts(q, s, e, w);
    case Enter(_, _, x) => NewcomerPhase(q, a); NewcomerOutside(q, a);
    case Granted(_, _) => NewcomerPhase(q, a); NewcomerOutside(q, a);
    case _ =>
  }

  lemma ActorMovesFit(q: Queue, a: Action, moves: nat)
    requires Inv(q) && Enabled(q, a) && !a.Close? && !a.CloseSignal? && MovesFit(q, a.side, a.entry, moves)
    ensures MovesFit(Do(q, a), a.side, a.entry, moves + if a.Move? then 1 else 0)
  {
    var s, e, r := a.side, a.entry, Do(q, a);
    ServedOnlyGrows(q, a, s);
    if e in PortOf(r, s).phases {
      ActorUnlocking(q, a);
      StepKeepsInv(q, a);
      PastLockIsServed(r, s, e);
      if a.Enter? || a.Granted? {
        NewcomerOutside(q, a);
      }
    } else if a.Move? {
      MoveKeepsPorts(q, s, e, a.woken);
    }
  }

  lemma StepMovesFit(q: Queue, a: Action, s: Side, e: Entry, moves: nat)
    requires Inv(q) && Enabled(q, a) && MovesFit(q, s, e, moves)
    ensures MovesFit(Do(q, a), s, e, moves + if a.Move? && a.side == s && a.entry == e then 1 else 0)
  {
    if IsActor(a, s, e) {
      ActorMovesFit(q, a, moves);
    } else {
      OthersUndisturbed(q, a, s, e);
      ServedOnlyGrows(q, a, s);
    }
  }

  lemma {:induction false} RunMovesFit(capacity: nat, run: seq<Action>, s: Side, e: Entry)
    requires IsRun(capacity, run)
    ensures MovesFit(After(capacity, run), s, e, Moves(run, s, e))
  {
    if run != [] {
      var init := run[..|run| - 1];
      RunMovesFit(capacity, init, s, e);
      RunKeepsInv(capacity, init);
      StepMovesFit(After(capacity, init), run[|run| - 1], s, e, Moves(init, s, e));
    }
  }

  // Over every run no caller moves two elements; one that unlocks after its move has moved
  // exactly one, one that leaves none.
  lemma MovesOneOrNone(capacity: nat, run: seq<Action>, s: Side, e: Entry)
    requires IsRun(capacity, run)
    ensures Moves(run, s, e) <= 1
    ensures InPhase(After(capacity, run), s, e, Unlocking) ==> Moves(run, s, e) == 1
    ensures InPhase(After(capacity, run), s, e, Leaving) ==> Moves(run, s, e) == 0
  {
    RunMovesFit(capacity, run, s, e);
  }

  function MovesOf(run: seq<Action>, s: Side): nat {
    if run == [] then 0
    else MovesOf(run[..|run| - 1], s) + if run[|run| - 1].Move? && run[|run| - 1].side == s then 1 else 0
  }

  // Each move of the adding side adds one element, each of the getting side removes one.
  lemma {:induction false} MovesCounted(capacity: nat, run: seq<Action>)
    requires IsRun(capacity, run)
    ensures |After(capacity, run).added| == MovesOf(run, Add) && |After(capacity, run).removed| == MovesOf(run, Get)
  {
    if run != [] {
      var init, a := run[..|run| - 1], run[|run| - 1];
      MovesCounted(capacity, init);
      var q := After(capacity, init);
      if a.Move? {
        MoveFindsWork(capacity, init, a.side, a.entry);
        MoveCounts(q, a.side, a.entry, a.woken);
      } else {
        OnlyMovesMove(q, a);
      }
    }
  }

  lemma MoveCounts(q: Queue, s: Side, e: Entry, w: Woken)
    requires Ready(q, s)
    ensures var r := DoMove(q, s, e, w);
      && |r.added| == |q.added| + (if s == Add then 1 else 0)
      && |r.removed| == |q.removed| + (if s == Get then 1 else 0)
  {}
}
