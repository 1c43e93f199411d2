/**
 Geofence transitions (geofence.c) as runs of position tests over a table with room for a
 fixed number of (node, polygon) pairs, none of which is ever dropped.
 */
module Geofence {

  datatype Key = Key(node: nat, polygon: nat)

  // A position of a node tested against a polygon.
  datatype Test = Test(key: Key, inside: bool)

  // An ENTRY or an EXIT.
  datatype Event = Event(key: Key, entry: bool)

  datatype State = State(tracked: map<Key, bool>, events: seq<Event>)

  const START := State(map[], [])

  // A pair is tracked if it already is, or if there is room for it.
  predicate Trackable(s: State, capacity: nat, key: Key) {
    key in s.tracked || |s.tracked| < capacity
  }

  function WasInside(s: State, key: Key): bool {
    key in s.tracked && s.tracked[key]
  }

  function Step(s: State, capacity: nat, t: Test): State {
    if !Trackable(s, capacity, t.key) then s
    else State(s.tracked[t.key := t.inside],
               if WasInside(s, t.key) == t.inside then s.events else s.events + [Event(t.key, t.inside)])
  }

  function RunFrom(s: State, capacity: nat, tests: seq<Test>): State {
    if tests == [] then s
    else Step(RunFrom(s, capacity, tests[..|tests| - 1]), capacity, tests[|tests| - 1])
  }

  lemma RunStep(s: State, capacity: nat, tests: seq<Test>, t: Test)
    ensures RunFrom(s, capacity, tests + [t]) == Step(RunFrom(s, capacity, tests), capacity, t)
  {
    assert (tests + [t])[..|tests|] == tests;
  }

  // A run made of two runs.
  lemma {:induction false} RunConcat(s: State, capacity: nat, a: seq<Test>, b: seq<Test>)
    ensures RunFrom(s, capacity, a + b) == RunFrom(RunFrom(s, capacity, a), capacity, b)
  {
    if b == [] {
      assert a + b == a;
    } else {
      assert (a + b)[..|a + b| - 1] == a + b[..|b| - 1];
      RunConcat(s, capacity, a, b[..|b| - 1]);
    }
  }

  // ---- The history of one pair ----

  function TestsOf(tests: seq<Test>, key: Key): seq<bool> {
    if tests == [] then []
    else
      var t := tests[|tests| - 1];
      TestsOf(tests[..|tests| - 1], key) + if t.key == key then [t.inside] else []
  }

  function EventsOf(events: seq<Event>, key: Key): seq<bool> {
    if events == [] then []
    else
      var e := events[|events| - 1];
      EventsOf(events[..|events| - 1], key) + if e.key == key then [e.entry] else []
  }

  lemma EventsOfAppend(events: seq<Event>, e: Event, key: Key)
    ensures EventsOf(events + [e], key) == EventsOf(events, key) + if e.key == key then [e.entry] else []
  {
    assert (events + [e])[..|events|] == events;
  }

  // The last position, outside if there is none.
  function Last(positions: seq<bool>): bool {
    positions != [] && positions[|positions| - 1]
  }

  // Every change of position, starting outside.
  function Transitions(positions: seq<bool>): seq<bool> {
    if positions == [] then []
    else
      var before, now := positions[..|positions| - 1], positions[|positions| - 1];
      Transitions(before) + if Last(before) == now then [] else [now]
  }

  // Transitions alternate ENTRY, EXIT from ENTRY on, and the last one is the last position.
  lemma {:induction false} TransitionsAlternate(positions: seq<bool>)
    ensures forall i :: 0 <= i < |Transitions(positions)| ==> Transitions(positions)[i] == (i % 2 == 0)
    ensures Last(Transitions(positions)) == Last(positions)
  {
    if positions != [] {
      TransitionsAlternate(positions[..|positions| - 1]);
    }
  }

  // What the run so far means for one pair: a tracked pair has had exactly the events of
  // its positions, all of them; an untracked pair that was ever tested met a full table.
  predicate Faithful(s: State, capacity: nat, tests: seq<Test>, key: Key) {
    var positions := TestsOf(tests, key);
    && |s.tracked| <= capacity
    && (key in s.tracked ==> s.tracked[key] == Last(positions) && EventsOf(s.events, key) == Transitions(positions))
    && (key !in s.tracked ==> EventsOf(s.events, key) == [] && (positions == [] || |s.tracked| == capacity))
  }

  lemma TrackedSize(tracked: map<Key, bool>, key: Key, inside: bool)
    ensures |tracked[key := inside]| == if key in tracked then |tracked| else |tracked| + 1
  {
    assert tracked[key := inside].Keys == tracked.Keys + {key};
  }

  // The test of a pair that is tracked, or is now.
  lemma StepTracked(s: State, capacity: nat, tests: seq<Test>, t: Test)
    requires Faithful(s, capacity, tests, t.key) && Trackable(s, capacity, t.key)
    ensures Faithful(Step(s, capacity, t), capacity, tests + [t], t.key)
  {
    var key, positions := t.key, TestsOf(tests, t.key);
    assert (tests + [t])[..|tests|] == tests;
    assert (positions + [t.inside])[..|positions|] == positions;
    TrackedSize(s.tracked, key, t.inside);
    EventsOfAppend(s.events, Event(key, t.inside), key);
    assert WasInside(s, key) == Last(positions);
  }

  lemma StepFaithful(s: State, capacity: nat, tests: seq<Test>, t: Test, key: Key)
    requires Faithful(s, capacity, tests, key)
    ensures Faithful(Step(s, capacity, t), capacity, tests + [t], key)
  {
    assert (tests + [t])[..|tests|] == tests;
    if t.key == key {
      if Trackable(s, capacity, key) {
        StepTracked(s, capacity, tests, t);
      }
    } else {
      TrackedSize(s.tracked, t.key, t.inside);
      EventsOfAppend(s.events, Event(t.key, t.inside), key);
      assert TestsOf(tests + [t], key) == TestsOf(tests, key);
    }
  }

  lemma {:induction false} RunFaithful(capacity: nat, tests: seq<Test>, key: Key)
    ensures Faithful(RunFrom(START, capacity, tests), capacity, tests, key)
  {
    if tests != [] {
      var n := |tests| - 1;
      RunFaithful(capacity, tests[..n], key);
      StepFaithful(RunFrom(START, capacity, tests[..n]), capacity, tests[..n], tests[n], key);
      assert tests == tests[..n] + [tests[n]];
    }
  }

  // Over any run, the events of every tracked pair are all of its transitions: they
  // alternate from ENTRY on and the last agrees with the last tested position.  An
  // untracked pair has no events, and was never tested or met a full table.
  lemma EventsAlternate(capacity: nat, tests: seq<Test>, key: Key)
    ensures var s := RunFrom(START, capacity, tests); var events := EventsOf(s.events, key);
      && (forall i :: 0 <= i < |events| ==> events[i] == (i % 2 == 0))
      && (key in s.tracked ==> events == Transitions(TestsOf(tests, key)) && Last(events) == Last(TestsOf(tests, key)))
      && (key !in s.tracked ==> events == [] && (TestsOf(tests, key) == [] || |s.tracked| == capacity))
  {
    RunFaithful(capacity, tests, key);
    TransitionsAlternate(TestsOf(tests, key));
  }

  // A tracked pair is never lost.
  lemma {:induction false} StaysTracked(s: State, capacity: nat, tests: seq<Test>, key: Key)
    requires key in s.tracked
    ensures key in RunFrom(s, capacity, tests).tracked
  {
    if tests != [] {
      StaysTracked(s, capacity, tests[..|tests| - 1], key);
    }
  }
}
