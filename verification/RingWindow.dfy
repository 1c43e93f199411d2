/** A window of a buffer that goes round its end: what a ring queue holds. */
module RingWindow {

  // (i + 1) % n for an index of the buffer
  method Next(i: nat, n: nat) returns (j: nat)
    requires i < n
    ensures j == if i + 1 == n then 0 else i + 1
  {
    j := (i + 1) % n;
    if i + 1 < n {
      SmallMod(i + 1, n);
    }
  }

  lemma SmallMod(i: nat, n: nat)
    requires i < n
    ensures i % n == i
  {}

  // Position i, going round the end of the buffer.
  function Around(i: nat, n: nat): int {
    if i < n then i else i - n
  }

  function Window<T>(q: seq<T>, front: nat, size: nat): (s: seq<T>)
    requires front < |q| && size <= |q|
    ensures |s| == size
  {
    (q + q)[front..front + size]
  }

  lemma WindowAt<T>(q: seq<T>, front: nat, size: nat, i: nat)
    requires front < |q| && size <= |q| && i < size
    ensures Window(q, front, size)[i] == q[Around(front + i, |q|)]
  {}

  lemma PutLast<T>(q: seq<T>, front: nat, size: nat, x: T)
    requires front < |q| && size < |q|
    ensures Window(q[Around(front + size, |q|) := x], front, size + 1) == Window(q, front, size) + [x]
  {
    var p := q[Around(front + size, |q|) := x];
    forall i | 0 <= i <= size
      ensures Window(p, front, size + 1)[i] == (Window(q, front, size) + [x])[i]
    {
      WindowAt(p, front, size + 1, i);
      if i < size { WindowAt(q, front, size, i); }
    }
  }

  lemma TakeFirst<T>(q: seq<T>, front: nat, size: nat)
    requires front < |q| && 0 < size <= |q|
    ensures [q[front]] + Window(q, Around(front + 1, |q|), size - 1) == Window(q, front, size)
  {
    forall i | 0 < i < size
      ensures Window(q, front, size)[i] == Window(q, Around(front + 1, |q|), size - 1)[i - 1]
    {
      WindowAt(q, front, size, i);
      WindowAt(q, Around(front + 1, |q|), size - 1, i - 1);
    }
    WindowAt(q, front, size, 0);
  }
}
