/**
 The open-addressed table behind the geofence (`state_find_or_make`, `geofence_check`):
 for any hash function and any size it is a map with room for as many pairs as slots.
 */
module GeofenceTable {
  import opened Geofence
  import opened Arithmetic

  datatype Slot = Empty | Used(key: Key, inside: bool)

  // The slot a probe looks at.
  function Probe(h: nat, probe: nat, n: nat): (i: nat)
    requires n > 0
    ensures i < n
  {
    (h + probe) % n
  }

  // The probe that reaches slot i.
  function Distance(h: nat, i: nat, n: nat): (d: nat)
    requires i < n
    ensures d < n
  {
    if h % n <= i then i - h % n else i + n - h % n
  }

  // n probes reach every slot.
  lemma ProbeReaches(h: nat, i: nat, n: nat)
    requires i < n
    ensures Probe(h, Distance(h, i, n), n) == i
  {
    var q, r := h / n, h % n;
    if r <= i {
      DivModIs(h + (i - r), n, q, i);
    } else {
      DivModIs(h + (i + n - r), n, q + 1, i);
    }
  }

  // ---- The table as a map ----

  // Pair k sits in slot `home[k]`, and every slot that its probes pass before is used.
  ghost predicate Seated(slots: seq<Slot>, hash: Key -> nat, home: map<Key, nat>, k: Key)
    requires k in home
  {
    var n := |slots|;
    && home[k] < n && slots[home[k]].Used? && slots[home[k]].key == k
    && (forall p: nat :: p < Distance(hash(k), home[k], n) ==> slots[Probe(hash(k), p, n)].Used?)
  }

  ghost predicate IsTable(slots: seq<Slot>, hash: Key -> nat, home: map<Key, nat>, tracked: map<Key, bool>) {
    && |slots| > 0
    && (forall k :: k in home ==> Seated(slots, hash, home, k))
    && (forall i :: 0 <= i < |slots| && slots[i].Used? ==> slots[i].key in home && home[slots[i].key] == i)
    && (forall k :: k in tracked <==> k in home)
    && (forall k :: k in home ==> slots[home[k]].inside == tracked[k])
  }

  // Filling an empty slot that the new pair's probes reach through used slots only.
  lemma Insert(slots: seq<Slot>, hash: Key -> nat, home: map<Key, nat>, tracked: map<Key, bool>, k: Key, p: nat)
    requires IsTable(slots, hash, home, tracked) && k !in home && p < |slots|
    requires slots[Probe(hash(k), p, |slots|)].Empty?
    requires forall q: nat :: q < p ==> slots[Probe(hash(k), q, |slots|)].Used?
    ensures var i := Probe(hash(k), p, |slots|);
      IsTable(slots[i := Used(k, false)], hash, home[k := i], tracked[k := false])
  {
    var n, i := |slots|, Probe(hash(k), p, |slots|);
    var slots', home' := slots[i := Used(k, false)], home[k := i];
    DistanceOfProbe(hash(k), p, n);
    forall j | j in home' ensures Seated(slots', hash, home', j) {
      if j != k {
        assert Seated(slots, hash, home, j);
      }
    }
  }

  lemma DistanceOfProbe(h: nat, p: nat, n: nat)
    requires p < n
    ensures Distance(h, Probe(h, p, n), n) == p
  {
    var q, r := h / n, h % n;
    if r + p < n {
      DivModIs(h + p, n, q, r + p);
    } else {
      DivModIs(h + p, n, q + 1, r + p - n);
    }
  }

  lemma Update(slots: seq<Slot>, hash: Key -> nat, home: map<Key, nat>, tracked: map<Key, bool>, k: Key, inside: bool)
    requires IsTable(slots, hash, home, tracked) && k in home
    ensures Seated(slots, hash, home, k)
    ensures IsTable(slots[home[k] := Used(k, inside)], hash, home, tracked[k := inside])
  {
    var slots' := slots[home[k] := Used(k, inside)];
    assert Seated(slots, hash, home, k);
    forall j | j in home ensures Seated(slots', hash, home, j) {
      assert Seated(slots, hash, home, j);
    }
  }

  // ---- How full it is ----

  ghost function UsedKeys(slots: seq<Slot>): set<Key> {
    set i | 0 <= i < |slots| && slots[i].Used? :: slots[i].key
  }

  ghost predicate Distinct(slots: seq<Slot>) {
    forall i, j :: 0 <= i < j < |slots| && slots[i].Used? && slots[j].Used? ==> slots[i].key != slots[j].key
  }

  lemma {:induction false} UsedKeysBound(slots: seq<Slot>)
    requires Distinct(slots)
    ensures |UsedKeys(slots)| <= |slots|
    ensures |UsedKeys(slots)| == |slots| <==> forall i :: 0 <= i < |slots| ==> slots[i].Used?
  {
    if slots != [] {
      var n := |slots| - 1;
      UsedKeysBound(slots[..n]);
      if slots[n].Used? {
        assert UsedKeys(slots) == UsedKeys(slots[..n]) + {slots[n].key};
      } else {
        assert UsedKeys(slots) == UsedKeys(slots[..n]);
      }
    }
  }

  // The table is full exactly when as many pairs are tracked as there are slots.
  lemma FullIff(slots: seq<Slot>, hash: Key -> nat, home: map<Key, nat>, tracked: map<Key, bool>)
    requires IsTable(slots, hash, home, tracked)
    ensures |tracked| <= |slots|
    ensures |tracked| == |slots| <==> forall i :: 0 <= i < |slots| ==> slots[i].Used?
  {
    assert Distinct(slots);
    forall k ensures k in UsedKeys(slots) <==> k in tracked.Keys {
      if k in tracked.Keys {
        assert Seated(slots, hash, home, k);
      }
    }
    assert UsedKeys(slots) == tracked.Keys;
    UsedKeysBound(slots);
  }

  // A used slot of another pair, or of this one further on, is where the search goes on.
  lemma Passed(slots: seq<Slot>, hash: Key -> nat, home: map<Key, nat>, tracked: map<Key, bool>, k: Key, p: nat)
    requires IsTable(slots, hash, home, tracked) && p < |slots|
    requires slots[Probe(hash(k), p, |slots|)].Empty? || slots[Probe(hash(k), p, |slots|)].key != k
    requires k in home ==> p <= Distance(hash(k), home[k], |slots|)
    ensures k in home ==> slots[Probe(hash(k), p, |slots|)].Used? && p < Distance(hash(k), home[k], |slots|)
  {
    if k in home {
      assert Seated(slots, hash, home, k);
      ProbeReaches(hash(k), home[k], |slots|);
    }
  }

  lemma AllProbed(slots: seq<Slot>, h: nat)
    requires |slots| > 0 && forall q: nat :: q < |slots| ==> slots[Probe(h, q, |slots|)].Used?
    ensures forall i :: 0 <= i < |slots| ==> slots[i].Used?
  {
    forall i | 0 <= i < |slots| ensures slots[i].Used? {
      ProbeReaches(h, i, |slots|);
      assert slots[Probe(h, Distance(h, i, |slots|), |slots|)].Used?;
    }
  }

  // The state with an entry for k.
  ghost function Made(s: State, k: Key): State {
    s.(tracked := s.tracked[k := WasInside(s, k)])
  }

  lemma MadeStep(s: State, capacity: nat, k: Key, nowIn: bool)
    ensures Trackable(s, capacity, k) ==> (
      Step(s, capacity, Test(k, nowIn))
      == if WasInside(s, k) == nowIn then Made(s, k)
         else State(Made(s, k).tracked[k := nowIn], s.events + [Event(k, nowIn)]))
  {
    assert Made(s, k).tracked[k := nowIn] == s.tracked[k := nowIn];
  }

  class Geofencing {
    const hash: Key -> nat
    const usable: seq<bool>                       // polygons with at least three vertices
    const contains: (nat, real, real) -> bool     // point_in_polygon
    const slots: array<Slot>
    var started: bool
    ghost var home: map<Key, nat>
    ghost var spec: State
    ghost var tests: seq<Test>                    // every test made so far

    ghost predicate Indexed()
      reads this, slots
    {
      IsTable(slots[..], hash, home, spec.tracked)
    }

    ghost predicate Valid()
      reads this, slots
    {
      Indexed() && spec == RunFrom(START, slots.Length, tests)
    }

    constructor (hash: Key -> nat, size: nat, usable: seq<bool>, contains: (nat, real, real) -> bool)
      requires size > 0
      ensures Valid() && fresh(slots) && slots.Length == size && spec == START && tests == []
      ensures this.hash == hash && this.usable == usable && this.contains == contains
    {
      this.hash, this.usable, this.contains := hash, usable, contains;
      slots := new Slot[size](_ => Empty);
      started, home, spec, tests := true, map[], START, [];
    }

    // The probe at which the search for a pair ends, or `slots.Length`.
    method Search(k: Key) returns (probe: nat)
      requires Indexed()
      ensures probe <= slots.Length && forall q: nat :: q < probe ==> slots[Probe(hash(k), q, slots.Length)].Used?
      ensures probe < slots.Length ==> (
        var slot := slots[Probe(hash(k), probe, slots.Length)]; if slot.Empty? then k !in home else slot.key == k)
      ensures probe == slots.Length ==> k !in home
    {
      var n := slots.Length;
      probe := 0;
      while probe < n
        invariant probe <= n
        invariant k in home ==> probe <= Distance(hash(k), home[k], n)
        invariant forall q: nat :: q < probe ==> slots[Probe(hash(k), q, n)].Used?
      {
        var i := (hash(k) + probe) % n;
        if slots[i].Used? && slots[i].key == k {
          return;
        }
        Passed(slots[..], hash, home, spec.tracked, k, probe);
        if slots[i].Empty? {
          return;
        }
        probe := probe + 1;
      }
    }

    method Make(k: Key, probe: nat) returns (i: nat)
      requires Indexed() && k !in home && probe < slots.Length && slots[Probe(hash(k), probe, slots.Length)].Empty?
      requires forall q: nat :: q < probe ==> slots[Probe(hash(k), q, slots.Length)].Used?
      modifies slots, `home, `spec
      ensures Indexed() && spec == old(spec).(tracked := old(spec).tracked[k := false])
      ensures i < slots.Length && k in home && home[k] == i && slots[i] == Used(k, false)
    {
      i := (hash(k) + probe) % slots.Length;
      Insert(slots[..], hash, home, spec.tracked, k, probe);
      slots[i] := Used(k, false);
      home, spec := home[k := i], spec.(tracked := spec.tracked[k := false]);
    }

    // The pair's slot, made if it has none; `slots.Length` if the table is full.
    method FindOrMake(k: Key) returns (i: nat)
      requires Indexed()
      modifies slots, `home, `spec
      ensures Indexed()
      ensures i < slots.Length <==> Trackable(old(spec), slots.Length, k)
      ensures i < slots.Length ==> k in home && home[k] == i && slots[i] == Used(k, WasInside(old(spec), k))
      ensures spec == if i < slots.Length then Made(old(spec), k) else old(spec)
    {
      FullIff(slots[..], hash, home, spec.tracked);
      var probe := Search(k);
      if probe == slots.Length {
        AllProbed(slots[..], hash(k));
        return probe;
      }
      i := (hash(k) + probe) % slots.Length;
      if slots[i].Empty? {
        i := Make(k, probe);
      } else {
        assert Made(spec, k).tracked == spec.tracked;
      }
    }

    // One polygon of a position check; the events it reports.
    method CheckOne(k: Key, nowIn: bool) returns (events: seq<Event>)
      requires Indexed()
      modifies slots, `home, `spec
      ensures Indexed() && spec == Step(old(spec), slots.Length, Test(k, nowIn))
      ensures spec.events == old(spec).events + events
    {
      var i := FindOrMake(k);
      MadeStep(old(spec), slots.Length, k, nowIn);
      if i >= slots.Length {
        return [];
      }
      if slots[i].inside == nowIn {
        return [];
      }
      events := Flip(i, k, nowIn);
    }

    method Flip(i: nat, k: Key, nowIn: bool) returns (events: seq<Event>)
      requires Indexed() && k in home && home[k] == i < slots.Length
      modifies slots, `spec
      ensures Indexed() && events == [Event(k, nowIn)]
      ensures spec == State(old(spec).tracked[k := nowIn], old(spec).events + events)
    {
      Update(slots[..], hash, home, spec.tracked, k, nowIn);
      slots[i] := Used(k, nowIn);
      events := [Event(k, nowIn)];
      spec := State(spec.tracked[k := nowIn], spec.events + events);
    }

    // The tests a position makes of the first m polygons.
    ghost function Tests(node: nat, lat: real, lon: real, m: nat): seq<Test>
      requires m <= |usable|
    {
      if m == 0 then []
      else
        Tests(node, lat, lon, m - 1)
        + if usable[m - 1] then [Test(Key(node, m - 1), contains(m - 1, lat, lon))] else []
    }

    // The first m polygons of a position check have been tested, and their events collected.
    ghost predicate Tested(before: State, node: nat, lat: real, lon: real, m: nat, events: seq<Event>)
      requires m <= |usable|
      reads this
    {
      spec == RunFrom(before, slots.Length, Tests(node, lat, lon, m)) && spec.events == before.events + events
    }

    method CheckPolygon(node: nat, lat: real, lon: real, i: nat, ghost before: State, events: seq<Event>)
      returns (more: seq<Event>)
      requires Indexed() && i < |usable| && Tested(before, node, lat, lon, i, events)
      modifies slots, `home, `spec
      ensures Indexed() && Tested(before, node, lat, lon, i + 1, more)
    {
      NextTests(node, lat, lon, i, before);
      if usable[i] {
        var one := CheckOne(Key(node, i), contains(i, lat, lon));
        more := events + one;
      } else {
        more := events;
      }
    }

    lemma NextTests(node: nat, lat: real, lon: real, i: nat, before: State)
      requires i < |usable|
      ensures var s := RunFrom(before, slots.Length, Tests(node, lat, lon, i));
        RunFrom(before, slots.Length, Tests(node, lat, lon, i + 1)) ==
        if usable[i] then Step(s, slots.Length, Test(Key(node, i), contains(i, lat, lon))) else s
    {
      if usable[i] {
        RunStep(before, slots.Length, Tests(node, lat, lon, i), Test(Key(node, i), contains(i, lat, lon)));
      } else {
        assert Tests(node, lat, lon, i + 1) == Tests(node, lat, lon, i);
      }
    }

    // The loop over the polygons.
    method CheckAll(node: nat, lat: real, lon: real) returns (events: seq<Event>)
      requires Indexed()
      modifies slots, `home, `spec
      ensures Indexed() && Tested(old(spec), node, lat, lon, |usable|, events)
    {
      events := [];
      for i := 0 to |usable|
        invariant Indexed() && Tested(old(spec), node, lat, lon, i, events)
      {
        events := CheckPolygon(node, lat, lon, i, old(spec), events);
      }
    }

    // geofence_check
    method Check(node: nat, lat: real, lon: real) returns (events: seq<Event>)
      requires Valid()
      modifies slots, `home, `spec, `tests
      ensures Valid() && spec.events == old(spec).events + events
      ensures var ignored := !started || (lat == 0.0 && lon == 0.0);
        var made := if ignored then [] else Tests(node, lat, lon, |usable|);
        tests == old(tests) + made && spec == RunFrom(old(spec), slots.Length, made)
    {
      if !started { return []; }
      if lat == 0.0 && lon == 0.0 { return []; }
      events := CheckAll(node, lat, lon);
      RunConcat(START, slots.Length, tests, Tests(node, lat, lon, |usable|));
      tests := tests + Tests(node, lat, lon, |usable|);
    }

    // All events reported so far, by all checks: those of a pair alternate from ENTRY on
    // and are the transitions of its positions, unless there was no room for the pair.
    lemma ReportedAlternate(k: Key)
      requires Valid()
      ensures var events := EventsOf(spec.events, k);
        && (forall i :: 0 <= i < |events| ==> events[i] == (i % 2 == 0))
        && (k in home ==> events == Transitions(TestsOf(tests, k)) && Last(events) == Last(TestsOf(tests, k)))
        && (k !in home ==>
            events == [] && (TestsOf(tests, k) == [] || forall i :: 0 <= i < slots.Length ==> slots[i].Used?))
    {
      EventsAlternate(slots.Length, tests, k);
      FullIff(slots[..], hash, home, spec.tracked);
    }
  }
}
