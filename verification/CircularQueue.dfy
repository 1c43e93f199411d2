/**
 The element store of the blocking queue: a circular buffer that is reallocated at
 twice the capacity when a boundless queue is full.  `Contents` is the sequence the
 protocol in `QueueProtocol` works on.
 */
module CircularQueue {
  import opened RingWindow

  lemma Unrolled(q: seq<int>, bigger: seq<int>, front: nat, size: nat)
    requires front < |q| && size == |q| && |bigger| == 2 * |q|
    requires forall i :: 0 <= i < size ==> bigger[i] == q[Around(front + i, |q|)]
    ensures Window(bigger, 0, size) == Window(q, front, size)
  {
    forall i | 0 <= i < size
      ensures Window(bigger, 0, size)[i] == Window(q, front, size)[i]
    {
      WindowAt(q, front, size, i);
    }
  }

  // memcpy of `n` elements
  method Copy(dst: array<int>, at: nat, src: array<int>, start: nat, n: nat)
    requires dst != src && at + n <= dst.Length && start + n <= src.Length
    modifies dst
    ensures forall i :: 0 <= i < dst.Length ==>
      dst[i] == if at <= i < at + n then src[start + i - at] else old(dst[i])
  {
    for k := 0 to n
      invariant forall i :: 0 <= i < dst.Length ==>
        dst[i] == if at <= i < at + k then src[start + i - at] else old(dst[i])
    {
      dst[at + k] := src[start + k];
    }
  }

  class CircularQueue {
    var queue: array<int>
    var size: nat
    var front: nat
    var rear: nat

    // `rear` is the last element's position: one before front + size, modulo the capacity.
    ghost predicate Valid()
      reads this
    {
      var n := queue.Length;
      && n > 0 && size <= n && front < n && rear < n
      && (rear + 1 == front + size || rear + 1 == front + size - n || rear + 1 == front + size + n)
    }

    // The elements from front to rear, going round the end of the buffer.
    ghost function Contents(): (s: seq<int>)
      requires Valid()
      reads this, queue
      ensures |s| == size
    {
      Window(queue[..], front, size)
    }

    constructor (capacity: nat)
      ensures Valid() && fresh(queue) && Contents() == []
      ensures queue.Length == if capacity == 0 then 1 else capacity
    {
      var n := if capacity == 0 then 1 else capacity;
      queue := new int[n];
      size, front, rear := 0, 0, n - 1;
    }

    method Enqueue(x: int)
      requires Valid() && size < queue.Length
      modifies `size, `rear, queue
      ensures Valid() && Contents() == old(Contents()) + [x]
    {
      PutLast(queue[..], front, size, x);
      rear := Next(rear, queue.Length);
      queue[rear] := x;
      size := size + 1;
    }

    method Dequeue() returns (x: int)
      requires Valid() && size > 0
      modifies `size, `front
      ensures Valid() && [x] + Contents() == old(Contents())
    {
      TakeFirst(queue[..], front, size);
      x := queue[front];
      front := Next(front, queue.Length);
      size := size - 1;
    }

    // The elements of a full buffer, from front to rear, at the start of a larger one.
    method Unroll() returns (bigger: array<int>)
      requires Valid() && size == queue.Length
      ensures fresh(bigger) && bigger.Length == 2 * queue.Length
      ensures Window(bigger[..], 0, size) == Contents()
    {
      bigger := new int[2 * queue.Length];
      if rear >= front {
        Copy(bigger, 0, queue, front, size);
      } else if front > rear {
        Copy(bigger, 0, queue, front, queue.Length - front);
        Copy(bigger, queue.Length - front, queue, 0, rear + 1);
      }
      Unrolled(queue[..], bigger[..], front, size);
    }

    // grow_queue; `allocOk` is whether malloc succeeds
    method Grow(allocOk: bool) returns (ok: bool)
      requires Valid() && size == queue.Length
      modifies `queue, `front, `rear
      ensures Valid() && ok == allocOk && Contents() == old(Contents())
      ensures ok ==> fresh(queue) && queue.Length == 2 * old(queue.Length)
      ensures !ok ==> queue == old(queue)
    {
      if !allocOk {
        return false;
      }
      var bigger := Unroll();
      queue := bigger;
      front := 0;
      rear := size - 1;
      return true;
    }
  }
}
