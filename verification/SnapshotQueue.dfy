/**
 The event queue between the lock callbacks and the snapshot writer, and the counters
 that account for every event (`iq_snapshot_enqueue`, `writer_thread_main`).  Callers
 run concurrently: a call is in flight between the counter it has bumped and the one it
 still owes.
 */
module SnapshotQueue {
  import opened RingWindow
  import opened Wrappers

  datatype Event = Event(lock: nat, snr: real)

  // How the writer disposed of an event.
  datatype Disposal = TimedOut | Missed | Failed | Kept

  datatype Counters = Counters(
    enqueued: nat, belowSnr: nat, queueFull: nat, timedOut: nat, missed: nat, kept: nat
  )

  // An enqueue call that has counted its event, or that was refused by a full queue.
  datatype Call = Announced(event: Event) | Refused

  datatype Config = Config(capacity: nat, minSnr: real)

  datatype State = State(
    counters: Counters,
    calls: map<nat, Call>,              // calls in flight, by caller
    pending: seq<Event>,                // the queue
    current: Option<Event>,             // the event the writer is working on
    failed: nat,                        // events lost to a failed library call
    admitted: seq<Event>,               // history: every event put in the queue
    finished: seq<Event>                // history: every event the writer is done with
  )

  datatype Action =
    | Announce(caller: nat, event: Event)
    | Filter(caller: nat)
    | Push(caller: nat, event: Event)
    | NoteFull(caller: nat)
    | Take
    | Finish(disposal: Disposal)

  predicate Enabled(c: Config, s: State, a: Action) {
    match a
    case Announce(caller, _) => caller !in s.calls
    case Filter(caller) => caller in s.calls && s.calls[caller].Announced? && s.calls[caller].event.snr < c.minSnr
    case Push(caller, event) => caller in s.calls && s.calls[caller] == Announced(event) && event.snr >= c.minSnr
    case NoteFull(caller) => caller in s.calls && s.calls[caller].Refused?
    case Take => s.current.None? && s.pending != []
    case Finish(_) => s.current.Some?
  }

  function DoPush(c: Config, s: State, caller: nat, event: Event): State {
    if |s.pending| >= c.capacity then s.(calls := s.calls[caller := Refused])
    else s.(calls := s.calls - {caller}, pending := s.pending + [event], admitted := s.admitted + [event])
  }

  function Bumped(k: Counters, d: Disposal): Counters {
    match d
    case TimedOut => k.(timedOut := k.timedOut + 1)
    case Missed => k.(missed := k.missed + 1)
    case Kept => k.(kept := k.kept + 1)
    case Failed => k
  }

  function DoFinish(s: State, d: Disposal): State
    requires s.current.Some?
  {
    s.(counters := Bumped(s.counters, d),
       failed := if d == Failed then s.failed + 1 else s.failed,
       current := None,
       finished := s.finished + [s.current.value])
  }

  function Do(c: Config, s: State, a: Action): State
    requires Enabled(c, s, a)
  {
    var k := s.counters;
    match a
    case Announce(caller, event) =>
      s.(counters := k.(enqueued := k.enqueued + 1), calls := s.calls[caller := Announced(event)])
    case Filter(caller) => s.(counters := k.(belowSnr := k.belowSnr + 1), calls := s.calls - {caller})
    case Push(caller, event) => DoPush(c, s, caller, event)
    case NoteFull(caller) => s.(counters := k.(queueFull := k.queueFull + 1), calls := s.calls - {caller})
    case Take => s.(current := Some(s.pending[0]), pending := s.pending[1..])
    case Finish(d) => DoFinish(s, d)
  }

  // ---- The invariant ----

  function InHand(o: Option<Event>): seq<Event> {
    if o.Some? then [o.value] else []
  }

  // Events that are accounted for, in flight, queued or in hand.
  function Accounted(s: State): nat {
    var k := s.counters;
    k.belowSnr + k.queueFull + k.timedOut + k.missed + k.kept + s.failed
      + |s.calls| + |s.pending| + |InHand(s.current)|
  }

  // The writer works through the admitted events in order.
  ghost predicate Ordered(c: Config, finished: seq<Event>, inHand: seq<Event>,
                          pending: seq<Event>, admitted: seq<Event>)
  {
    && |pending| <= c.capacity
    && finished + inHand + pending == admitted
    && (forall i :: 0 <= i < |admitted| ==> admitted[i].snr >= c.minSnr)
  }

  ghost predicate Inv(c: Config, s: State) {
    && s.counters.enqueued == Accounted(s)
    && Ordered(c, s.finished, InHand(s.current), s.pending, s.admitted)
  }

  lemma CallAdded(calls: map<nat, Call>, caller: nat, call: Call)
    ensures |calls[caller := call]| == if caller in calls then |calls| else |calls| + 1
  {
    assert calls[caller := call].Keys == calls.Keys + {caller};
  }

  lemma CallRemoved(calls: map<nat, Call>, caller: nat)
    requires caller in calls
    ensures |calls - {caller}| == |calls| - 1
  {
    assert (calls - {caller}).Keys == calls.Keys - {caller};
  }

  lemma PushKeepsInv(c: Config, s: State, caller: nat, e: Event)
    requires Inv(c, s) && caller in s.calls && e.snr >= c.minSnr
    ensures Inv(c, DoPush(c, s, caller, e))
  {
    if |s.pending| >= c.capacity {
      CallAdded(s.calls, caller, Refused);
    } else {
      CallRemoved(s.calls, caller);
      assert s.finished + InHand(s.current) + (s.pending + [e]) == s.admitted + [e];
    }
  }

  lemma TakeKeepsInv(c: Config, s: State)
    requires Inv(c, s) && Enabled(c, s, Take)
    ensures Inv(c, Do(c, s, Take))
  {
    assert s.finished + [] == s.finished;
    assert s.finished + [s.pending[0]] + s.pending[1..] == s.finished + s.pending;
  }

  lemma FinishKeepsInv(c: Config, s: State, d: Disposal)
    requires Inv(c, s) && s.current.Some?
    ensures Inv(c, DoFinish(s, d))
  {
    assert s.finished + [s.current.value] + [] == s.finished + [s.current.value];
  }

  lemma StepKeepsInv(c: Config, s: State, a: Action)
    requires Inv(c, s) && Enabled(c, s, a)
    ensures Inv(c, Do(c, s, a))
  {
    match a
    case Announce(caller, event) => CallAdded(s.calls, caller, Announced(event));
    case Filter(caller) => CallRemoved(s.calls, caller);
    case Push(caller, event) => PushKeepsInv(c, s, caller, event);
    case NoteFull(caller) => CallRemoved(s.calls, caller);
    case Take => TakeKeepsInv(c, s);
    case Finish(d) => FinishKeepsInv(c, s, d);
  }

  // ---- Runs ----

  const START := State(Counters(0, 0, 0, 0, 0, 0), map[], [], None, 0, [], [])

  ghost predicate Runs(c: Config, s: State, actions: seq<Action>)
    decreases |actions|
  {
    actions == [] || (Enabled(c, s, actions[0]) && Runs(c, Do(c, s, actions[0]), actions[1..]))
  }

  ghost function DoAll(c: Config, s: State, actions: seq<Action>): State
    requires Runs(c, s, actions)
    decreases |actions|
  {
    if actions == [] then s else DoAll(c, Do(c, s, actions[0]), actions[1..])
  }

  lemma {:induction false} RunKeepsInv(c: Config, s: State, actions: seq<Action>)
    requires Inv(c, s) && Runs(c, s, actions)
    ensures Inv(c, DoAll(c, s, actions))
    decreases |actions|
  {
    if actions != [] {
      StepKeepsInv(c, s, actions[0]);
      RunKeepsInv(c, Do(c, s, actions[0]), actions[1..]);
    }
  }

  // No call in flight, nothing queued, nothing in hand.
  predicate Quiescent(s: State) {
    s.calls == map[] && s.pending == [] && s.current.None?
  }

  // At quiescence every event is in exactly one counter (or failed), and the writer has
  // handled exactly the admitted events, in order.
  lemma QuiescentBalance(c: Config, actions: seq<Action>)
    requires Runs(c, START, actions) && Quiescent(DoAll(c, START, actions))
    ensures var s := DoAll(c, START, actions); var k := s.counters;
      && k.enqueued == k.belowSnr + k.queueFull + k.kept + k.timedOut + k.missed + s.failed
      && s.finished == s.admitted
  {
    assert Inv(c, START);
    RunKeepsInv(c, START, actions);
  }

  // ---- What the counters count ----

  datatype Kind = Announces | Filters | Overflows | Finishes(disposal: Disposal) | Moves

  function KindOf(a: Action): Kind {
    match a
    case Announce(_, _) => Announces
    case Filter(_) => Filters
    case NoteFull(_) => Overflows
    case Finish(d) => Finishes(d)
    case Push(_, _) => Moves
    case Take => Moves
  }

  function Tally(actions: seq<Action>, kind: Kind): nat {
    if actions == [] then 0
    else (if KindOf(actions[0]) == kind then 1 else 0) + Tally(actions[1..], kind)
  }

  // t counts the actions on top of what s had counted, each in its own counter.
  predicate Counted(s: State, actions: seq<Action>, t: State) {
    && t.counters.enqueued == s.counters.enqueued + Tally(actions, Announces)
    && t.counters.belowSnr == s.counters.belowSnr + Tally(actions, Filters)
    && t.counters.queueFull == s.counters.queueFull + Tally(actions, Overflows)
    && t.counters.timedOut == s.counters.timedOut + Tally(actions, Finishes(TimedOut))
    && t.counters.missed == s.counters.missed + Tally(actions, Finishes(Missed))
    && t.counters.kept == s.counters.kept + Tally(actions, Finishes(Kept))
    && t.failed == s.failed + Tally(actions, Finishes(Failed))
  }

  lemma {:induction false} RunCounts(c: Config, s: State, actions: seq<Action>)
    requires Runs(c, s, actions)
    ensures Counted(s, actions, DoAll(c, s, actions))
    decreases |actions|
  {
    if actions != [] {
      RunCounts(c, Do(c, s, actions[0]), actions[1..]);
    }
  }

  // Each counter is the number of actions of its kind: `kept`, `timedOut`, `missed` and
  // `failed` those that finished an event that way, `belowSnr`, `queueFull` and `enqueued`
  // the filtered, refused and announced ones.
  predicate Counts(actions: seq<Action>, s: State) {
    && s.counters.enqueued == Tally(actions, Announces)
    && s.counters.belowSnr == Tally(actions, Filters)
    && s.counters.queueFull == Tally(actions, Overflows)
    && s.counters.timedOut == Tally(actions, Finishes(TimedOut))
    && s.counters.missed == Tally(actions, Finishes(Missed))
    && s.counters.kept == Tally(actions, Finishes(Kept))
    && s.failed == Tally(actions, Finishes(Failed))
  }

  lemma FromZero(s: State, actions: seq<Action>, t: State)
    requires s.counters == Counters(0, 0, 0, 0, 0, 0) && s.failed == 0 && Counted(s, actions, t)
    ensures Counts(actions, t)
  {}

  lemma CountersCount(c: Config, start: State, actions: seq<Action>)
    requires start == START && Runs(c, start, actions)
    ensures Counts(actions, DoAll(c, start, actions))
  {
    RunCounts(c, start, actions);
    FromZero(start, actions, DoAll(c, start, actions));
  }

  // ---- A whole call ----

  // A step of one of the other callers, or of the writer.
  predicate ByOther(a: Action, caller: nat) {
    a.Take? || a.Finish? || a.caller != caller
  }

  predicate ByCaller(a: Action) {
    !a.Take? && !a.Finish?
  }

  lemma {:induction false} OthersKeepCall(c: Config, s: State, actions: seq<Action>, caller: nat)
    requires Runs(c, s, actions) && (forall a :: a in actions ==> ByOther(a, caller)) && caller in s.calls
    ensures var t := DoAll(c, s, actions); caller in t.calls && t.calls[caller] == s.calls[caller]
    decreases |actions|
  {
    if actions != [] {
      assert ByOther(actions[0], caller);
      OthersKeepCall(c, Do(c, s, actions[0]), actions[1..], caller);
    }
  }

  lemma {:induction false} CallersKeepCurrent(c: Config, s: State, actions: seq<Action>)
    requires Runs(c, s, actions) && forall a :: a in actions ==> ByCaller(a)
    ensures DoAll(c, s, actions).current == s.current
    decreases |actions|
  {
    if actions != [] {
      assert ByCaller(actions[0]);
      CallersKeepCurrent(c, Do(c, s, actions[0]), actions[1..]);
    }
  }

  // What becomes of an announced event.
  function Settled(c: Config, s: State, caller: nat, event: Event): State
    requires caller in s.calls && s.calls[caller] == Announced(event)
  {
    if event.snr < c.minSnr then Do(c, s, Filter(caller))
    else if |s.pending| >= c.capacity then Do(c, Do(c, s, Push(caller, event)), NoteFull(caller))
    else Do(c, s, Push(caller, event))
  }

  // Left alone, a call counts its event and queues it, or counts why not; nothing else.
  lemma CallAlone(c: Config, s: State, caller: nat, event: Event)
    requires caller !in s.calls
    ensures var t := Settled(c, Do(c, s, Announce(caller, event)), caller, event);
      var k := s.counters.(enqueued := s.counters.enqueued + 1);
      t == if event.snr < c.minSnr then s.(counters := k.(belowSnr := k.belowSnr + 1))
           else if |s.pending| >= c.capacity then s.(counters := k.(queueFull := k.queueFull + 1))
           else s.(counters := k, pending := s.pending + [event], admitted := s.admitted + [event])
  {
    var one, two := s.calls[caller := Announced(event)], s.calls[caller := Announced(event)][caller := Refused];
    assert one - {caller} == s.calls && two - {caller} == s.calls;
  }

  // ---- The queue as it is updated in place ----

  class Recorder {
    const config: Config
    const q: array<Event>
    var head: nat
    var tail: nat
    var count: nat
    var counters: Counters
    ghost var spec: State

    // The entries from head, going round the end of the buffer.
    ghost predicate Holds(events: seq<Event>)
      reads this, q
    {
      var n := q.Length;
      && count <= n && head < n && tail == Around(head + count, n)
      && Window(q[..], head, count) == events
    }

    ghost predicate Valid()
      reads this, q
    {
      q.Length == config.capacity && Holds(spec.pending) && counters == spec.counters && Inv(config, spec)
    }

    constructor (c: Config)
      requires c.capacity > 0
      ensures Valid() && fresh(q) && config == c && spec == START
    {
      config := c;
      q := new Event[c.capacity](_ => Event(0, 0.0));
      head, tail, count := 0, 0, 0;
      counters := Counters(0, 0, 0, 0, 0, 0);
      spec := START;
    }

    method BumpEnqueued(caller: nat, event: Event)
      requires Valid() && Enabled(config, spec, Announce(caller, event))
      modifies this
      ensures Valid() && spec == Do(config, old(spec), Announce(caller, event))
    {
      StepKeepsInv(config, spec, Announce(caller, event));
      counters := counters.(enqueued := counters.enqueued + 1);
      spec := Do(config, spec, Announce(caller, event));
    }

    method BumpBelowSnr(caller: nat)
      requires Valid() && Enabled(config, spec, Filter(caller))
      modifies this
      ensures Valid() && spec == Do(config, old(spec), Filter(caller))
    {
      StepKeepsInv(config, spec, Filter(caller));
      counters := counters.(belowSnr := counters.belowSnr + 1);
      spec := Do(config, spec, Filter(caller));
    }

    method BumpQueueFull(caller: nat)
      requires Valid() && Enabled(config, spec, NoteFull(caller))
      modifies this
      ensures Valid() && spec == Do(config, old(spec), NoteFull(caller))
    {
      StepKeepsInv(config, spec, NoteFull(caller));
      counters := counters.(queueFull := counters.queueFull + 1);
      spec := Do(config, spec, NoteFull(caller));
    }

    method PutTail(ghost events: seq<Event>, event: Event)
      requires Holds(events) && count < q.Length
      modifies q, `tail, `count
      ensures Holds(events + [event])
    {
      PutLast(q[..], head, count, event);
      q[tail] := event;
      tail := Next(tail, q.Length);
      count := count + 1;
    }

    method GetHead(ghost events: seq<Event>) returns (event: Event)
      requires Holds(events) && count > 0
      modifies `head, `count
      ensures Holds(events[1..]) && event == events[0]
    {
      TakeFirst(q[..], head, count);
      event := q[head];
      head := Next(head, q.Length);
      count := count - 1;
    }

    // The critical section of iq_snapshot_enqueue.
    method TryPush(caller: nat, event: Event) returns (ok: bool)
      requires Valid() && Enabled(config, spec, Push(caller, event))
      modifies this, q
      ensures Valid() && spec == Do(config, old(spec), Push(caller, event))
      ensures ok <==> |old(spec).pending| < config.capacity
    {
      PushKeepsInv(config, spec, caller, event);
      ok := count < q.Length;
      if ok {
        PutTail(spec.pending, event);
      }
      spec := DoPush(config, spec, caller, event);
    }

    // The critical section of writer_thread_main.
    method Pop() returns (event: Event)
      requires Valid() && Enabled(config, spec, Take)
      modifies this
      ensures Valid() && spec == Do(config, old(spec), Take) && event == old(spec).pending[0]
    {
      TakeKeepsInv(config, spec);
      event := GetHead(spec.pending);
      spec := Do(config, spec, Take);
    }

    method Dispose(d: Disposal)
      requires Valid() && Enabled(config, spec, Finish(d))
      modifies this
      ensures Valid() && spec == Do(config, old(spec), Finish(d))
      ensures var k := old(counters);
        && counters.kept == (if d == Kept then k.kept + 1 else k.kept)
        && counters.timedOut == (if d == TimedOut then k.timedOut + 1 else k.timedOut)
        && counters.missed == (if d == Missed then k.missed + 1 else k.missed)
        && counters.enqueued == k.enqueued && counters.belowSnr == k.belowSnr && counters.queueFull == k.queueFull
    {
      StepKeepsInv(config, spec, Finish(d));
      counters := Bumped(counters, d);
      spec := Do(config, spec, Finish(d));
    }

    method Perform(a: Action)
      requires Valid() && Enabled(config, spec, a)
      modifies this, q
      ensures Valid() && spec == Do(config, old(spec), a)
    {
      match a
      case Announce(caller, event) => BumpEnqueued(caller, event);
      case Filter(caller) => BumpBelowSnr(caller);
      case Push(caller, event) => var _ := TryPush(caller, event);
      case NoteFull(caller) => BumpQueueFull(caller);
      case Take => var _ := Pop();
      case Finish(d) => Dispose(d);
    }

    // Steps of other threads.
    method Interfere(actions: seq<Action>)
      requires Valid() && Runs(config, spec, actions)
      modifies this, q
      ensures Valid() && spec == DoAll(config, old(spec), actions)
      decreases |actions|
    {
      if actions != [] {
        Perform(actions[0]);
        Interfere(actions[1..]);
      }
    }

    // iq_snapshot_enqueue; `meanwhile` is what other threads do before it takes the lock.
    method Enqueue(caller: nat, event: Event, meanwhile: seq<Action>)
      requires Valid() && caller !in spec.calls && forall a :: a in meanwhile ==> ByOther(a, caller)
      requires Runs(config, Do(config, spec, Announce(caller, event)), meanwhile)
      modifies this, q
      ensures var met := DoAll(config, Do(config, old(spec), Announce(caller, event)), meanwhile);
        && caller in met.calls && met.calls[caller] == Announced(event)
        && Valid() && spec == Settled(config, met, caller, event)
    {
      BumpEnqueued(caller, event);
      OthersKeepCall(config, spec, meanwhile, caller);
      Interfere(meanwhile);
      if event.snr < config.minSnr {
        BumpBelowSnr(caller);
      } else {
        var ok := TryPush(caller, event);
        if !ok {
          BumpQueueFull(caller);
        }
      }
    }
  }
}
