/**
 The 64-bit XOR fold by which the dedup ring recognises replicas of one frame
 (`dedup_payload_fingerprint`), and how bit errors show up in it.
 */
module Fingerprint {
  import opened Bits

  function Zeros(n: nat): (r: seq<bool>)
    ensures |r| == n && forall i :: 0 <= i < n ==> !r[i]
  {
    seq(n, i => false)
  }

  // A byte string as one little-endian bit string, as memcpy reads it.
  function Flatten(p: seq<Byte>): (r: seq<bool>)
    ensures |r| == 8 * |p|
  {
    if p == [] then [] else Flatten(p[..|p| - 1]) + p[|p| - 1]
  }

  // `(h << 1) | (h >> 63)`
  function Rotate(h: seq<bool>): (r: seq<bool>)
    ensures |r| == |h|
  {
    if h == [] then [] else [h[|h| - 1]] + h[..|h| - 1]
  }

  // The accumulator after `k` whole words.
  function Fold(p: seq<Byte>, k: nat): (h: seq<bool>)
    requires 8 * k <= |p|
    ensures |h| == 64
  {
    if k == 0 then Zeros(64) else Rotate(Xor(Fold(p, k - 1), Flatten(p[8 * k - 8..8 * k])))
  }

  // The bytes after the last whole word, in the low bits of a word.
  function Tail(p: seq<Byte>): (t: seq<bool>)
    ensures |t| == 64
  {
    var rest := Flatten(p[8 * (|p| / 8)..]);
    rest + Zeros(64 - |rest|)
  }

  function FingerprintOf(p: seq<Byte>): (fp: seq<bool>)
    ensures |fp| == 64
  {
    Xor(Fold(p, |p| / 8), Tail(p))
  }

  function Or(a: seq<bool>, b: seq<bool>): (r: seq<bool>)
    requires |a| == |b|
    ensures |r| == |a|
  {
    seq(|a|, i requires 0 <= i < |a| => a[i] || b[i])
  }

  lemma FoldStep(p: seq<Byte>, k: nat)
    requires 8 * k + 8 <= |p|
    ensures Fold(p, k + 1) == Rotate(Xor(Fold(p, k), Flatten(p[8 * k..8 * k + 8])))
  {
    assert p[8 * (k + 1) - 8..8 * (k + 1)] == p[8 * k..8 * k + 8];
  }

  // The loop over whole words.
  method FoldWords(p: seq<Byte>) returns (h: seq<bool>, i: nat)
    ensures i == 8 * (|p| / 8) && h == Fold(p, |p| / 8)
  {
    ghost var k := 0;
    h, i := Zeros(64), 0;
    while i + 8 <= |p|
      invariant i == 8 * k <= |p| && h == Fold(p, k)
    {
      var w := Flatten(p[i..i + 8]);
      h := Rotate(Xor(h, w));
      FoldStep(p, k);
      i := i + 8;
      k := k + 1;
    }
    assert k == |p| / 8;
  }

  // The loop over the remaining bytes.
  method TailBits(p: seq<Byte>, start: nat) returns (tail: seq<bool>)
    requires start <= |p| < start + 8
    ensures |tail| == 64 && tail == Flatten(p[start..]) + Zeros(64 - 8 * (|p| - start))
  {
    tail := Zeros(64);
    ghost var rest := p[start..];
    for i := start to |p|
      invariant |tail| == 64 && tail == Flatten(rest[..i - start]) + Zeros(64 - 8 * (i - start))
    {
      var shift := 8 * (i - start);
      assert rest[..i - start + 1][..i - start] == rest[..i - start];
      OrByte(Flatten(rest[..i - start]), p[i], 64 - shift);
      tail := Or(tail, Zeros(shift) + p[i] + Zeros(56 - shift));
    }
    assert rest[..|p| - start] == rest;
  }

  lemma OrByte(a: seq<bool>, b: Byte, room: nat)
    requires room >= 8
    ensures Or(a + Zeros(room), Zeros(|a|) + b + Zeros(room - 8)) == a + b + Zeros(room - 8)
  {}

  method ComputeFingerprint(p: seq<Byte>) returns (fp: seq<bool>)
    ensures fp == FingerprintOf(p)
  {
    var h, start := FoldWords(p);
    var tail := TailBits(p, start);
    fp := Xor(h, tail);
  }

  // ---- Bit errors ----

  // The number of bits in which two payloads differ.
  function BitErrors(p: seq<Byte>, q: seq<Byte>): nat
    requires |p| == |q|
  {
    Ones(Xor(Flatten(p), Flatten(q)))
  }

  function Distance(a: seq<bool>, b: seq<bool>): nat
    requires |a| == |b|
  {
    Ones(Xor(a, b))
  }

  lemma OnesRotate(h: seq<bool>)
    ensures Ones(Rotate(h)) == Ones(h)
  {
    if h != [] {
      OnesConcat([h[|h| - 1]], h[..|h| - 1]);
      assert Ones([h[|h| - 1]]) == Unit(h[|h| - 1]);
    }
  }

  // x bounds y and has its parity.
  predicate Covers(x: nat, y: nat) {
    y <= x && x % 2 == y % 2
  }

  lemma CoversAdd(x: nat, y: nat, more: nat, z: nat)
    requires Covers(x, y) && Covers(y + more, z)
    ensures Covers(x + more, z)
  {}

  lemma {:induction false} FlattenConcat(p: seq<Byte>, q: seq<Byte>)
    ensures Flatten(p + q) == Flatten(p) + Flatten(q)
  {
    if q == [] {
      assert p + q == p;
    } else {
      assert (p + q)[..|p + q| - 1] == p + q[..|q| - 1];
      FlattenConcat(p, q[..|q| - 1]);
    }
  }

  lemma BitErrorsConcat(p: seq<Byte>, q: seq<Byte>, p': seq<Byte>, q': seq<Byte>)
    requires |p| == |q| && |p'| == |q'|
    ensures BitErrors(p + p', q + q') == BitErrors(p, q) + BitErrors(p', q')
  {
    FlattenConcat(p, p');
    FlattenConcat(q, q');
    assert Xor(Flatten(p + p'), Flatten(q + q')) == Xor(Flatten(p), Flatten(q)) + Xor(Flatten(p'), Flatten(q'));
    OnesConcat(Xor(Flatten(p), Flatten(q)), Xor(Flatten(p'), Flatten(q')));
  }

  lemma RotateDistance(a: seq<bool>, b: seq<bool>)
    requires |a| == |b|
    ensures Distance(Rotate(a), Rotate(b)) == Distance(a, b)
  {
    assert Xor(Rotate(a), Rotate(b)) == Rotate(Xor(a, b));
    OnesRotate(Xor(a, b));
  }

  // XOR with another word adds at most that word's errors.
  lemma XorDistance(a: seq<bool>, b: seq<bool>, w: seq<bool>, v: seq<bool>)
    requires |a| == |b| == |w| == |v|
    ensures Covers(Distance(a, b) + Distance(w, v), Distance(Xor(a, w), Xor(b, v)))
  {
    assert Xor(Xor(a, w), Xor(b, v)) == Xor(Xor(a, b), Xor(w, v));
    OnesXor(Xor(a, b), Xor(w, v));
  }

  lemma DistanceSelf(a: seq<bool>)
    ensures Distance(a, a) == 0
  {
    assert Xor(a, a) == Zeros(|a|);
    OnesZeros(|a|);
  }

  // Folding in another word.
  lemma XorCovers(a: seq<bool>, b: seq<bool>, w: seq<bool>, v: seq<bool>, errors: nat)
    requires |a| == |b| == |w| == |v| && Covers(errors, Distance(a, b))
    ensures Covers(errors + Distance(w, v), Distance(Xor(a, w), Xor(b, v)))
  {
    XorDistance(a, b, w, v);
    CoversAdd(errors, Distance(a, b), Distance(w, v), Distance(Xor(a, w), Xor(b, v)));
  }

  // The errors in the first k words.
  function WordErrors(p: seq<Byte>, q: seq<Byte>, k: nat): nat
    requires |p| == |q| && 8 * k <= |p|
  {
    if k == 0 then 0 else WordErrors(p, q, k - 1) + BitErrors(p[8 * k - 8..8 * k], q[8 * k - 8..8 * k])
  }

  lemma {:induction false} WordErrorsSum(p: seq<Byte>, q: seq<Byte>, k: nat)
    requires |p| == |q| && 8 * k <= |p|
    ensures WordErrors(p, q, k) == BitErrors(p[..8 * k], q[..8 * k])
  {
    if k > 0 {
      var i := 8 * k - 8;
      WordErrorsSum(p, q, k - 1);
      assert p[..8 * k] == p[..i] + p[i..8 * k] && q[..8 * k] == q[..i] + q[i..8 * k];
      BitErrorsConcat(p[..i], q[..i], p[i..8 * k], q[i..8 * k]);
    }
  }

  predicate FoldCovered(p: seq<Byte>, q: seq<Byte>, k: nat)
    requires |p| == |q| && 8 * k <= |p|
  {
    Covers(WordErrors(p, q, k), Distance(Fold(p, k), Fold(q, k)))
  }

  lemma FoldCoveredStart(p: seq<Byte>, q: seq<Byte>)
    requires |p| == |q|
    ensures FoldCovered(p, q, 0)
  {
    DistanceSelf(Fold(p, 0));
  }

  lemma FoldCoveredStep(p: seq<Byte>, q: seq<Byte>, k: nat)
    requires |p| == |q| && 0 < 8 * k <= |p| && FoldCovered(p, q, k - 1)
    ensures FoldCovered(p, q, k)
  {
    FoldRound(p, q, k, WordErrors(p, q, k - 1));
  }

  lemma {:induction false} FoldDistance(p: seq<Byte>, q: seq<Byte>, k: nat)
    requires |p| == |q| && 8 * k <= |p|
    ensures FoldCovered(p, q, k)
  {
    if k == 0 {
      FoldCoveredStart(p, q);
    } else {
      FoldDistance(p, q, k - 1);
      FoldCoveredStep(p, q, k);
    }
  }

  lemma FoldRound(p: seq<Byte>, q: seq<Byte>, k: nat, errors: nat)
    requires |p| == |q| && 0 < 8 * k <= |p| && Covers(errors, Distance(Fold(p, k - 1), Fold(q, k - 1)))
    ensures Covers(errors + BitErrors(p[8 * k - 8..8 * k], q[8 * k - 8..8 * k]), Distance(Fold(p, k), Fold(q, k)))
  {
    var a, b, w, v := Fold(p, k - 1), Fold(q, k - 1), Flatten(p[8 * k - 8..8 * k]), Flatten(q[8 * k - 8..8 * k]);
    XorCovers(a, b, w, v, errors);
    RotateDistance(Xor(a, w), Xor(b, v));
  }

  lemma {:induction false} OnesZeros(n: nat)
    ensures Ones(Zeros(n)) == 0
  {
    if n > 0 {
      assert Zeros(n)[..n - 1] == Zeros(n - 1);
      OnesZeros(n - 1);
    }
  }

  lemma TailDistance(p: seq<Byte>, q: seq<Byte>)
    requires |p| == |q|
    ensures Distance(Tail(p), Tail(q)) == BitErrors(p[8 * (|p| / 8)..], q[8 * (|p| / 8)..])
  {
    var a, b := Flatten(p[8 * (|p| / 8)..]), Flatten(q[8 * (|p| / 8)..]);
    var z := Zeros(64 - |a|);
    assert Xor(a + z, b + z) == Xor(a, b) + z;
    OnesConcat(Xor(a, b), z);
    OnesZeros(64 - |a|);
  }

  lemma SplitErrors(p: seq<Byte>, q: seq<Byte>, i: nat)
    requires |p| == |q| && i <= |p|
    ensures BitErrors(p, q) == BitErrors(p[..i], q[..i]) + BitErrors(p[i..], q[i..])
  {
    assert p == p[..i] + p[i..] && q == q[..i] + q[i..];
    BitErrorsConcat(p[..i], q[..i], p[i..], q[i..]);
  }

  // Payloads of equal length that differ in k bits have fingerprints that differ in at
  // most k bits, and in an even number exactly when k is even.
  lemma FingerprintDistance(p: seq<Byte>, q: seq<Byte>)
    requires |p| == |q|
    ensures Distance(FingerprintOf(p), FingerprintOf(q)) <= BitErrors(p, q)
    ensures Distance(FingerprintOf(p), FingerprintOf(q)) % 2 == BitErrors(p, q) % 2
  {
    var k := |p| / 8;
    FoldDistance(p, q, k);
    XorCovers(Fold(p, k), Fold(q, k), Tail(p), Tail(q), WordErrors(p, q, k));
    WordErrorsSum(p, q, k);
    TailDistance(p, q);
    SplitErrors(p, q, 8 * k);
  }

  // ---- Where each payload bit goes ----

  function FlipBit(p: seq<Byte>, k: nat): (r: seq<Byte>)
    requires k < 8 * |p|
    ensures |r| == |p|
  {
    p[k / 8 := p[k / 8][k % 8 := !p[k / 8][k % 8]]]
  }

  // a and b differ in bit i and in no other.
  predicate Apart(a: seq<bool>, b: seq<bool>, i: nat) {
    |a| == |b| && i < |a| && a[i] != b[i] && forall j :: 0 <= j < |a| && j != i ==> a[j] == b[j]
  }

  lemma {:induction false} FlattenAt(p: seq<Byte>, i: nat)
    requires i < 8 * |p|
    ensures Flatten(p)[i] == p[i / 8][i % 8]
  {
    var n := |p| - 1;
    if i < 8 * n {
      FlattenAt(p[..n], i);
    } else {
      assert i / 8 == n && i % 8 == i - 8 * n;
    }
  }

  lemma FlattenFlip(p: seq<Byte>, k: nat)
    requires k < 8 * |p|
    ensures Apart(Flatten(p), Flatten(FlipBit(p, k)), k)
  {
    forall i | 0 <= i < 8 * |p|
      ensures Flatten(FlipBit(p, k))[i] == (Flatten(p)[i] != (i == k))
    {
      FlattenAt(p, i);
      FlattenAt(FlipBit(p, k), i);
      SameBit(i, k);
    }
  }

  lemma SameBit(i: nat, k: nat)
    ensures i == k <==> i / 8 == k / 8 && i % 8 == k % 8
  {}

  function Up(i: nat): nat {
    if i == 63 then 0 else i + 1
  }

  lemma RotateAt(h: seq<bool>, j: nat)
    requires |h| == 64 && j < 64
    ensures Rotate(h)[Up(j)] == h[j]
  {}

  // Bits j of a and b go to bits Up(j).
  lemma RotateApartAt(a: seq<bool>, b: seq<bool>, i: nat, j: nat)
    requires |a| == 64 && Apart(a, b, i) && j < 64
    ensures (Rotate(a)[Up(j)] != Rotate(b)[Up(j)]) == (Up(j) == Up(i))
  {
    RotateAt(a, j);
    RotateAt(b, j);
  }

  lemma RotateApart(a: seq<bool>, b: seq<bool>, i: nat)
    requires |a| == 64 && Apart(a, b, i)
    ensures Apart(Rotate(a), Rotate(b), Up(i))
  {
    var x, y, k := Rotate(a), Rotate(b), Up(i);
    forall m | 0 <= m < 64
      ensures (x[m] != y[m]) == (m == k)
    {
      RotateApartAt(a, b, i, if m == 0 then 63 else m - 1);
    }
    ApartFrom(x, y, k);
  }

  lemma ApartFrom(x: seq<bool>, y: seq<bool>, k: nat)
    requires |x| == |y| && k < |x| && forall m :: 0 <= m < |x| ==> ((x[m] != y[m]) == (m == k))
    ensures Apart(x, y, k)
  {}

  // One difference, in the accumulator or in the word, is one difference after a round.
  lemma RoundApart(h: seq<bool>, g: seq<bool>, w: seq<bool>, v: seq<bool>, i: nat)
    requires |h| == |g| == |w| == |v| == 64 && ((h == g && Apart(w, v, i)) || (Apart(h, g, i) && w == v))
    ensures Apart(Rotate(Xor(h, w)), Rotate(Xor(g, v)), Up(i))
  {
    RotateApart(Xor(h, w), Xor(g, v), i);
  }

  function WordAt(p: seq<Byte>, n: nat): (w: seq<bool>)
    requires 8 * n + 8 <= |p|
    ensures |w| == 64
  {
    Flatten(p[8 * n..8 * n + 8])
  }

  lemma WordFlip(p: seq<Byte>, k: nat, n: nat)
    requires 8 * n + 8 <= |p| && k < 8 * |p|
    ensures k / 64 == n ==> Apart(WordAt(p, n), WordAt(FlipBit(p, k), n), k % 64)
    ensures k / 64 != n ==> WordAt(FlipBit(p, k), n) == WordAt(p, n)
  {
    var q, i := FlipBit(p, k), 8 * n;
    if k / 64 == n {
      assert k / 8 - i == (k % 64) / 8 && k % 8 == k % 64 % 8;
      assert q[i..i + 8] == FlipBit(p[i..i + 8], k % 64);
      FlattenFlip(p[i..i + 8], k % 64);
    } else {
      assert q[i..i + 8] == p[i..i + 8];
    }
  }

  // Where bit k is after n words.
  function HomeAfter(k: nat, n: nat): nat {
    (k + n - k / 64) % 64
  }

  lemma HomeNext(k: nat, n: nat)
    requires n >= k / 64
    ensures HomeAfter(k, n + 1) == Up(HomeAfter(k, n)) && HomeAfter(k, k / 64) == k % 64
  {}

  // What inverting bit k does to the accumulator after n words.
  predicate Tracks(k: nat, n: nat, h: seq<bool>, g: seq<bool>) {
    if n <= k / 64 then g == h else Apart(h, g, HomeAfter(k, n))
  }

  lemma TracksRound(k: nat, n: nat, h: seq<bool>, g: seq<bool>, w: seq<bool>, v: seq<bool>)
    requires |h| == |g| == |w| == |v| == 64 && Tracks(k, n, h, g)
    requires if k / 64 == n then Apart(w, v, k % 64) else v == w
    ensures Tracks(k, n + 1, Rotate(Xor(h, w)), Rotate(Xor(g, v)))
  {
    if k / 64 <= n {
      HomeNext(k, n);
      RoundApart(h, g, w, v, HomeAfter(k, n));
    }
  }

  lemma {:induction false} FoldFlip(p: seq<Byte>, k: nat, n: nat)
    requires 8 * n <= |p| && k < 8 * |p|
    ensures Tracks(k, n, Fold(p, n), Fold(FlipBit(p, k), n))
  {
    if n > 0 {
      FoldFlip(p, k, n - 1);
      FoldFlipStep(p, k, n - 1);
    }
  }

  lemma FoldFlipStep(p: seq<Byte>, k: nat, n: nat)
    requires 8 * n + 8 <= |p| && k < 8 * |p| && Tracks(k, n, Fold(p, n), Fold(FlipBit(p, k), n))
    ensures Tracks(k, n + 1, Fold(p, n + 1), Fold(FlipBit(p, k), n + 1))
  {
    var q := FlipBit(p, k);
    FoldStep(p, n);
    FoldStep(q, n);
    WordFlip(p, k, n);
    TracksRound(k, n, Fold(p, n), Fold(q, n), WordAt(p, n), WordAt(q, n));
  }

  lemma TailFlip(p: seq<Byte>, k: nat)
    requires k < 8 * |p|
    ensures k / 64 < |p| / 8 ==> Tail(FlipBit(p, k)) == Tail(p)
    ensures k / 64 >= |p| / 8 ==> Apart(Tail(p), Tail(FlipBit(p, k)), k % 64)
  {
    var i, q := 8 * (|p| / 8), FlipBit(p, k);
    if k / 64 < |p| / 8 {
      assert q[i..] == p[i..];
    } else {
      assert q[i..] == FlipBit(p[i..], k - 8 * i);
      FlattenFlip(p[i..], k - 8 * i);
    }
  }

  // Inverting bit k of a payload inverts one bit of its fingerprint: a bit of the last,
  // partial word stays in its place, and one of a whole word moves up by one for that word
  // and for each whole word after it, around the end.
  lemma FlipMoves(p: seq<Byte>, k: nat)
    requires k < 8 * |p|
    ensures var words := |p| / 8;
      Apart(FingerprintOf(p), FingerprintOf(FlipBit(p, k)),
            if k / 64 < words then (k + words - k / 64) % 64 else k % 64)
  {
    assert HomeAfter(k, |p| / 8) == (k + |p| / 8 - k / 64) % 64;
    FoldFlip(p, k, |p| / 8);
    TailFlip(p, k);
  }

  // The fingerprint of zeros is zero.
  lemma {:induction false} ZeroFold(p: seq<Byte>, n: nat)
    requires 8 * n <= |p| && forall i :: 0 <= i < |p| ==> p[i] == ZERO_BYTE
    ensures Fold(p, n) == Zeros(64)
  {
    if n > 0 {
      ZeroFold(p, n - 1);
      ZeroFlatten(p[8 * n - 8..8 * n]);
    }
  }

  lemma ZeroFlatten(p: seq<Byte>)
    requires forall i :: 0 <= i < |p| ==> p[i] == ZERO_BYTE
    ensures Flatten(p) == Zeros(8 * |p|)
  {
    forall i | 0 <= i < 8 * |p|
      ensures !Flatten(p)[i]
    {
      FlattenAt(p, i);
    }
  }

  lemma ZeroFingerprint(p: seq<Byte>)
    requires forall i :: 0 <= i < |p| ==> p[i] == ZERO_BYTE
    ensures FingerprintOf(p) == Zeros(64)
  {
    ZeroFold(p, |p| / 8);
    ZeroFlatten(p[8 * (|p| / 8)..]);
  }
}
