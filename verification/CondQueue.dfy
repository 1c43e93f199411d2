/**
 The fair lock's data structure: a linked queue of condition entries and a pool
 of spare ones, spliced in place.
 */
module CondQueue {
  import opened FairLockProtocol

  // Where an entry is: in the pool, in the queue, or with a signalled caller that
  // has not woken up yet.
  datatype Home = Pool | Queue | Caller

  class CondEntry {
    var weak: bool
    var abandoned: bool
    var next: CondEntry?
    ghost var request: Entry  // the request the entry currently stands for
    ghost var home: Home

    constructor ()
      ensures next == null
    {
      weak, abandoned, next := false, false, null;
      request, home := Entry(0, false), Pool;
    }
  }

  // `s` is the list that starts at `head`.
  ghost predicate IsList(s: seq<CondEntry>, head: CondEntry?)
    reads s`next
  {
    && (forall i, j :: 0 <= i < j < |s| ==> s[i] != s[j])
    && head == Head(s)
    && (forall i {:trigger s[i].next} :: 0 <= i < |s| - 1 ==> s[i].next == s[i + 1])
    && (s != [] ==> s[|s| - 1].next == null)
  }

  ghost function Head(s: seq<CondEntry>): CondEntry? {
    if s == [] then null else s[0]
  }

  ghost function Last(s: seq<CondEntry>): CondEntry? {
    if s == [] then null else s[|s| - 1]
  }

  // The entries of `s` are queued and stand for the requests `r`.
  ghost predicate StandFor(s: seq<CondEntry>, r: seq<Entry>)
    reads s`request, s`weak, s`abandoned, s`home
  {
    && |s| == |r|
    && forall i :: 0 <= i < |s| ==>
      s[i].home == Queue && s[i].request == r[i] && s[i].weak == r[i].weak && !s[i].abandoned
  }

  // The weak entries of `s` are with their callers, marked as abandoned.
  ghost predicate WeakMarked(s: seq<CondEntry>, r: seq<Entry>)
    reads s`request, s`abandoned, s`home
  {
    && |s| == |r|
    && forall i :: 0 <= i < |s| && r[i].weak ==> s[i].home == Caller && s[i].abandoned && s[i].request == r[i]
  }

  lemma WeakMarkedNext(s: seq<CondEntry>, r: seq<Entry>, k: nat)
    requires k < |s| == |r| && WeakMarked(s[..k], r[..k])
    requires r[k].weak ==> s[k].home == Caller && s[k].abandoned && s[k].request == r[k]
    ensures WeakMarked(s[..k + 1], r[..k + 1])
  {
    forall i | 0 <= i < k && r[i].weak ensures s[i].home == Caller && s[i].abandoned && s[i].request == r[i] {
      assert s[..k][i] == s[i] && r[..k][i] == r[i];
    }
  }

  function Removed<T>(s: seq<T>, m: nat): seq<T>
    requires m < |s|
  {
    s[..m] + s[m + 1..]
  }

  lemma RemovedMiddle<T>(a: seq<T>, b: seq<T>, k: nat)
    requires k < |b|
    ensures Removed(a + b[k..], |a|) == a + b[k + 1..]
  {}

  lemma StandForRemoved(s: seq<CondEntry>, r: seq<Entry>, m: nat)
    requires StandFor(s, r) && m < |s|
    ensures StandFor(Removed(s, m), Removed(r, m))
  {
    forall i | 0 <= i < |s| - 1
      ensures Removed(s, m)[i] == s[if i < m then i else i + 1] && Removed(r, m)[i] == r[if i < m then i else i + 1]
    {}
  }

  // Put entry `e` at the end of the list `l`.
  method LinkAfter(last: CondEntry?, e: CondEntry, ghost l: seq<CondEntry>)
    requires IsList(l, Head(l)) && last == Last(l) && e !in l
    modifies (if last == null then {} else {last})`next, e`next
    ensures IsList(l + [e], Head(l + [e]))
  {
    if last != null {
      last.next := e;
    }
    e.next := null;
  }

  // The same for a list that stands for the requests `r`.
  method QueueAfter(last: CondEntry?, e: CondEntry, ghost l: seq<CondEntry>, ghost r: seq<Entry>)
    requires IsList(l, Head(l)) && last == Last(l) && StandFor(l, r)
    requires e.home == Caller && e.weak == e.request.weak && !e.abandoned
    modifies (if last == null then {} else {last})`next, e`next, e`home
    ensures IsList(l + [e], Head(l + [e])) && StandFor(l + [e], r + [e.request])
  {
    LinkAfter(last, e, l);
    e.home := Queue;
  }

  // Take entry `e`, at position `m`, out of the list `l`.
  method UnlinkAt(prev: CondEntry?, e: CondEntry, ghost l: seq<CondEntry>, ghost m: nat)
    requires IsList(l, Head(l)) && m < |l| && l[m] == e && prev == if m == 0 then null else l[m - 1]
    modifies (if prev == null then {} else {prev})`next
    ensures IsList(Removed(l, m), Head(Removed(l, m))) && e.next == old(e.next)
  {
    if prev != null {
      prev.next := e.next;
    }
  }

  // Tell the caller of an entry that has left the list `l`.
  method Mark(e: CondEntry, ghost l: seq<CondEntry>, ghost r: seq<Entry>)
    requires StandFor(l, r) && e !in l
    modifies e`abandoned, e`home
    ensures StandFor(l, r) && e.abandoned && e.home == Caller
  {
    e.abandoned := true;
    e.home := Caller;
  }

  // Both: the list is shorter by `e`, and what was marked before stays marked.
  method DropAt(prev: CondEntry?, e: CondEntry, ghost l: seq<CondEntry>, ghost m: nat, ghost r: seq<Entry>,
                ghost done: seq<CondEntry>, ghost doneFor: seq<Entry>)
    requires IsList(l, Head(l)) && m < |l| && l[m] == e && prev == if m == 0 then null else l[m - 1]
    requires StandFor(Removed(l, m), r) && e !in Removed(l, m) && WeakMarked(done, doneFor) && e.home == Queue
    modifies (if prev == null then {} else {prev})`next, e`abandoned, e`home
    ensures IsList(Removed(l, m), Head(Removed(l, m))) && StandFor(Removed(l, m), r) && WeakMarked(done, doneFor)
    ensures e.next == old(e.next) && e.abandoned && e.home == Caller
  {
    UnlinkAt(prev, e, l, m);
    Mark(e, Removed(l, m), r);
  }

  // The variables of the loop in abandone_weak_locks.
  datatype ScanVars = ScanVars(current: CondEntry?, first: CondEntry?, last: CondEntry?, dropped: int)

  lemma WholeList(queue: seq<CondEntry>, requests: seq<Entry>)
    ensures [] + queue[0..] == queue && queue[..0] == []
    ensures requests[..0] == [] && Strong(requests[..0]) + requests[0..] == requests
  {
    assert requests[..0] == [] && Strong([]) == [];
  }

  class CondQueue {
    var front: CondEntry?
    var rear: CondEntry?
    var pool: CondEntry?
    ghost var queue: seq<CondEntry>  // the list from front to rear
    ghost var requests: seq<Entry>   // what they stand for
    ghost var free: seq<CondEntry>   // the list from pool

    ghost predicate ValidQueue()
      reads this`front, this`rear, this`queue, this`requests, queue
    {
      IsList(queue, front) && rear == Last(queue) && StandFor(queue, requests)
    }

    ghost predicate Valid()
      reads this, queue, free
    {
      ValidQueue() && IsList(free, pool) && forall i :: 0 <= i < |free| ==> free[i].home == Pool
    }

    constructor ()
      ensures Valid() && queue == [] && requests == [] && free == []
    {
      front, rear, pool := null, null, null;
      queue, requests, free := [], [], [];
    }

    // The first part of enqueue_cond_queue_entry: take an entry from the pool, or a
    // new one; `allocOk` is whether malloc succeeds.
    method TakeSpare(allocOk: bool) returns (e: CondEntry?)
      requires Valid()
      modifies this`pool, this`free, free`home
      ensures Valid()
      ensures e == null <==> old(free) == [] && !allocOk
      ensures e != null ==> e.home == Caller
      ensures free == (if old(free) == [] then [] else old(free)[1..])
      ensures old(free) == [] ==> e == null || fresh(e)
      ensures old(free) != [] ==> e == old(free)[0]
    {
      if pool == null {
        if !allocOk { return null; }
        e := new CondEntry();
      } else {
        e := pool;
        pool := e.next;
        free := free[1..];
      }
      e.home := Caller;
    }

    // The rest of enqueue_cond_queue_entry: append the entry, its flags set, to the queue.
    method PushRear(e: CondEntry)
      requires Valid() && e.home == Caller && e.weak == e.request.weak && !e.abandoned
      modifies this`front, this`rear, this`queue, this`requests, queue`next, e`next, e`home
      ensures Valid()
      ensures queue == old(queue) + [e] && requests == old(requests) + [e.request]
    {
      assert forall i :: 0 <= i < |free| ==> free[i] != e && free[i] != rear;
      QueueAfter(rear, e, queue, requests);
      if front == null {
        front := e;
      }
      rear := e;
      queue, requests := queue + [e], requests + [e.request];
    }

    method Prepare(e: CondEntry, weak: bool, ghost request: Entry)
      requires Valid() && e.home == Caller
      modifies e`weak, e`abandoned, e`request
      ensures Valid() && e.weak == weak && !e.abandoned && e.request == request
    {
      e.weak := weak;
      e.abandoned := false;
      e.request := request;
    }

    // enqueue_cond_queue_entry
    method Enqueue(weak: bool, allocOk: bool, ghost request: Entry) returns (e: CondEntry?)
      requires Valid() && request.weak == weak
      modifies this, queue`next, free
      ensures Valid()
      ensures e == null ==> !allocOk && queue == old(queue) && requests == old(requests)
      ensures e != null ==> queue == old(queue) + [e] && requests == old(requests) + [request] && e.request == request
    {
      e := TakeSpare(allocOk);
      if e != null {
        Prepare(e, weak, request);
        PushRear(e);
      }
    }

    // dequeue_cond_queue_entry
    method Dequeue() returns (target: CondEntry?)
      requires Valid()
      modifies this`front, this`rear, this`queue, this`requests, queue`home
      ensures Valid()
      ensures target == null <==> old(queue) == []
      ensures target == null ==> queue == old(queue) && requests == old(requests)
      ensures target != null ==> target == old(queue)[0] && queue == old(queue)[1..]
      ensures target != null ==> requests == old(requests)[1..] && target.request == old(requests)[0]
      ensures target != null ==> target.home == Caller && !target.abandoned
    {
      if front == null { return null; }
      target := front;
      if target == rear {
        rear := null;
      }
      front := target.next;
      target.home := Caller;
      queue, requests := queue[1..], requests[1..];
    }

    // release_cond_queue_entry
    method Release(e: CondEntry)
      requires Valid() && e.home == Caller
      modifies this`pool, this`free, e`next, e`home
      ensures Valid()
      ensures free == [e] + old(free)
    {
      e.next := pool;
      e.home := Pool;
      pool := e;
      free := [e] + free;
    }

    // The loop of abandone_weak_locks after `k` entries: the strong ones among them, then
    // the rest of the queue, are one list, and the weak ones are marked.
    ghost predicate Scanning(v: ScanVars, k: nat, strong: seq<CondEntry>)
      reads this`queue, this`requests, queue, strong
    {
      && k <= |queue| == |requests| && |strong| == |Strong(requests[..k])|
      && (forall e :: e in strong ==> e in queue)
      && IsList(strong + queue[k..], Head(strong + queue[k..]))
      && StandFor(strong + queue[k..], Strong(requests[..k]) + requests[k..])
      && WeakMarked(queue[..k], requests[..k])
      && v == ScanVars(Head(queue[k..]), Head(strong), Last(strong), k - |strong|)
    }

    // The loop variables after keeping or dropping the current entry.
    ghost function Kept(v: ScanVars): ScanVars
      requires v.current != null
      reads v.current
    {
      ScanVars(v.current.next, if v.first == null then v.current else v.first, v.current, v.dropped)
    }

    ghost function Dropped(v: ScanVars): ScanVars
      requires v.current != null
      reads v.current
    {
      ScanVars(v.current.next, v.first, v.last, v.dropped + 1)
    }

    // An entry that is kept.
    lemma KeepStrong(v: ScanVars, k: nat, strong: seq<CondEntry>)
      requires Scanning(v, k, strong) && v.current != null && !v.current.weak
      ensures Scanning(Kept(v), k + 1, strong + [v.current])
    {
      var e := queue[k];
      var l := strong + queue[k..];
      StrongPrefix(requests, k);
      WeakMarkedNext(queue, requests, k);
      assert strong + [e] + queue[k + 1..] == l;
      assert l[|strong|] == e;
      assert Strong(requests[..k + 1]) + requests[k + 1..] == Strong(requests[..k]) + requests[k..];
    }

    // The list without the current entry.
    lemma DropCurrent(v: ScanVars, k: nat, strong: seq<CondEntry>)
      requires Scanning(v, k, strong) && v.current != null && v.current.weak
      ensures var l, m, rest := strong + queue[k..], |strong|, strong + queue[k + 1..];
        && l[m] == v.current && Removed(l, m) == rest && v.current !in rest && (v.last != null ==> v.last in queue)
        && v.last == (if m == 0 then null else l[m - 1]) && v.current.next == Head(queue[k + 1..])
        && StandFor(rest, Strong(requests[..k + 1]) + requests[k + 1..]) && m == |Strong(requests[..k + 1])|
    {
      var l, m := strong + queue[k..], |strong|;
      var r := Strong(requests[..k]) + requests[k..];
      assert l[m] == queue[k];
      StandForRemoved(l, r, m);
      StrongPrefix(requests, k);
      RemovedMiddle(Strong(requests[..k]), requests, k);
      RemovedMiddle(strong, queue, k);
    }

    // An entry that is dropped: its predecessor skips it, and its caller is told.
    method DropWeak(v: ScanVars, ghost k: nat, ghost strong: seq<CondEntry>)
      requires Scanning(v, k, strong) && v.current != null && v.current.weak
      modifies queue`next, queue`abandoned, queue`home
      ensures Scanning(Dropped(v), k + 1, strong)
    {
      DropCurrent(v, k, strong);
      DropAt(v.last, v.current, strong + queue[k..], |strong|,
             Strong(requests[..k + 1]) + requests[k + 1..], queue[..k], requests[..k]);
      WeakMarkedNext(queue, requests, k);
    }

    method Visit(v: ScanVars, ghost k: nat, ghost strong: seq<CondEntry>)
      returns (w: ScanVars, ghost more: seq<CondEntry>)
      requires Scanning(v, k, strong) && v.current != null
      modifies queue`next, queue`abandoned, queue`home
      ensures Scanning(w, k + 1, more)
    {
      if v.current.weak {
        DropWeak(v, k, strong);
        w, more := ScanVars(v.current.next, v.first, v.last, v.dropped + 1), strong;
      } else {
        KeepStrong(v, k, strong);
        var first := if v.first == null then v.current else v.first;
        w, more := ScanVars(v.current.next, first, v.current, v.dropped), strong + [v.current];
      }
    }

    // The loop of abandone_weak_locks.
    method ScanQueue() returns (v: ScanVars, ghost strong: seq<CondEntry>)
      requires ValidQueue()
      modifies queue`next, queue`abandoned, queue`home
      ensures Scanning(v, |queue|, strong) && v.current == null
    {
      ghost var k := 0;
      v, strong := ScanVars(front, null, null, 0), [];
      StartScan();
      while v.current != null
        invariant Scanning(v, k, strong)
        decreases |queue| - k
      {
        v, strong := Visit(v, k, strong);
        k := k + 1;
      }
    }

    lemma StartScan()
      requires ValidQueue()
      ensures Scanning(ScanVars(front, null, null, 0), 0, [])
    {
      WholeList(queue, requests);
    }

    // The effect of the loop: the weak entries are unlinked and marked.
    method UnlinkWeak() returns (first: CondEntry?, last: CondEntry?, dropped: int, ghost strong: seq<CondEntry>)
      requires Valid()
      modifies queue`next, queue`abandoned, queue`home
      ensures IsList(strong, first) && last == Last(strong) && StandFor(strong, Strong(requests))
      ensures WeakMarked(queue, requests)
      ensures IsList(free, pool) && forall i :: 0 <= i < |free| ==> free[i].home == Pool
      ensures dropped == |queue| - |strong|
    {
      assert forall i :: 0 <= i < |free| ==> free[i] !in queue;
      var v;
      v, strong := ScanQueue();
      first, last, dropped := v.first, v.last, v.dropped;
      ScanDone(v, strong);
    }

    lemma ScanDone(v: ScanVars, strong: seq<CondEntry>)
      requires Scanning(v, |queue|, strong)
      ensures IsList(strong, v.first) && StandFor(strong, Strong(requests)) && WeakMarked(queue, requests)
    {
      var n := |queue|;
      assert strong + queue[n..] == strong && queue[..n] == queue && requests[..n] == requests;
      assert Strong(requests[..n]) + requests[n..] == Strong(requests);
    }

    // The end of abandone_weak_locks: the strong chain becomes the queue.
    method InstallQueue(first: CondEntry?, last: CondEntry?, ghost strong: seq<CondEntry>)
      requires IsList(strong, first) && last == Last(strong) && StandFor(strong, Strong(requests))
      requires IsList(free, pool) && forall i :: 0 <= i < |free| ==> free[i].home == Pool
      modifies this`front, this`rear, this`queue, this`requests
      ensures Valid()
      ensures queue == strong && requests == Strong(old(requests))
    {
      front := first;
      rear := last;
      queue, requests := strong, Strong(requests);
    }

    // abandone_weak_locks; the number of abandoned entries is what waiting_threads loses
    method AbandonWeak() returns (dropped: int)
      requires Valid()
      modifies this`front, this`rear, this`queue, this`requests, queue`next, queue`abandoned, queue`home
      ensures Valid()
      ensures requests == Strong(old(requests)) && dropped == |old(requests)| - |requests|
      ensures WeakMarked(old(queue), old(requests))
    {
      var first, last, n, strong := UnlinkWeak();
      dropped := n;
      InstallQueue(first, last, strong);
    }
  }
}
