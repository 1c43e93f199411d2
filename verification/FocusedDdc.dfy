/**
 The focused worker's filter (`focused_process_chunk`): a mirrored delay line whose
 outputs, over any split of the stream into chunks, are the decimated convolution of
 the stream with the taps; and the lock stamp announced with each output.
 */
module FocusedDdc {

  datatype Cx = Cx(re: real, im: real)

  const ZERO := Cx(0.0, 0.0)

  function Add(a: Cx, b: Cx): Cx { Cx(a.re + b.re, a.im + b.im) }

  function Scale(a: Cx, k: real): Cx { Cx(a.re * k, a.im * k) }

  // The stream, with silence before its start.
  function At(s: seq<Cx>, i: int): Cx {
    if 0 <= i < |s| then s[i] else ZERO
  }

  // The sum of taps[t] * s[first + t].
  function Dot(taps: seq<real>, s: seq<Cx>, first: int): Cx {
    if taps == [] then ZERO
    else
      var n := |taps| - 1;
      Add(Dot(taps[..n], s, first), Scale(At(s, first + n), taps[n]))
  }

  // The filter's value at sample i: the window of |taps| samples that ends with it.
  function Convolved(taps: seq<real>, s: seq<Cx>, i: int): Cx {
    Dot(taps, s, i + 1 - |taps|)
  }

  // The filter is linear, and its answer to a single sample is that sample scaled by the
  // taps, the last tap first.
  lemma {:induction false} DotSum(taps: seq<real>, s: seq<Cx>, t: seq<Cx>, sum: seq<Cx>, first: int)
    requires |s| == |t| == |sum| && forall i :: 0 <= i < |s| ==> sum[i] == Add(s[i], t[i])
    ensures Dot(taps, sum, first) == Add(Dot(taps, s, first), Dot(taps, t, first))
  {
    if taps != [] {
      var n := |taps| - 1;
      DotSum(taps[..n], s, t, sum, first);
      assert At(sum, first + n) == Add(At(s, first + n), At(t, first + n));
      SumOfSums(Dot(taps[..n], s, first), Dot(taps[..n], t, first), At(s, first + n), At(t, first + n), taps[n]);
    }
  }

  lemma SumOfSums(a: Cx, b: Cx, x: Cx, y: Cx, k: real)
    ensures Add(Add(a, b), Scale(Add(x, y), k)) == Add(Add(a, Scale(x, k)), Add(b, Scale(y, k)))
  {
    assert (x.re + y.re) * k == x.re * k + y.re * k && (x.im + y.im) * k == x.im * k + y.im * k;
  }

  lemma ZeroTerms(x: Cx, k: real)
    ensures Add(ZERO, x) == x && Add(x, Scale(ZERO, k)) == x && Add(ZERO, Scale(ZERO, k)) == ZERO
  {}

  predicate IsImpulse(s: seq<Cx>, p: nat) {
    p < |s| && forall i :: 0 <= i < |s| && i != p ==> s[i] == ZERO
  }

  lemma {:induction false} DotImpulse(taps: seq<real>, s: seq<Cx>, p: nat, first: int)
    requires IsImpulse(s, p)
    ensures Dot(taps, s, first) == if 0 <= p - first < |taps| then Scale(s[p], taps[p - first]) else ZERO
  {
    if taps != [] {
      var n := |taps| - 1;
      DotImpulse(taps[..n], s, p, first);
      ZeroTerms(Scale(s[p], taps[n]), taps[n]);
      if 0 <= p - first < n {
        ZeroTerms(Scale(s[p], taps[p - first]), taps[n]);
      }
    }
  }

  lemma ImpulseResponse(taps: seq<real>, s: seq<Cx>, p: nat, i: nat)
    requires IsImpulse(s, p) && i < |s|
    ensures Convolved(taps, s, i) ==
      if p <= i < p + |taps| then Scale(s[p], taps[|taps| - 1 - (i - p)]) else ZERO
  {
    DotImpulse(taps, s, p, i + 1 - |taps|);
  }

  // The number of samples in k whole groups.
  function Span(k: nat, decim: nat): nat {
    if k == 0 then 0 else Span(k - 1, decim) + decim
  }

  lemma {:induction false} SpanIs(k: nat, decim: nat)
    ensures Span(k, decim) == k * decim
  {
    if k > 0 {
      SpanIs(k - 1, decim);
      assert k * decim == (k - 1) * decim + decim;
    }
  }

  lemma {:induction false} SpanAdd(a: nat, b: nat, decim: nat)
    ensures Span(a + b, decim) == Span(a, decim) + Span(b, decim)
  {
    if b > 0 {
      SpanAdd(a, b - 1, decim);
    }
  }

  // Every decim-th value, from the last sample of each group.
  function Decimated(taps: seq<real>, decim: nat, s: seq<Cx>, count: nat): (r: seq<Cx>)
    ensures |r| == count
  {
    seq(count, k requires 0 <= k < count => Convolved(taps, s, Span(k + 1, decim) - 1))
  }

  // What is added to the stream later does not change earlier values.
  lemma {:induction false} DotPrefix(taps: seq<real>, s: seq<Cx>, more: seq<Cx>, first: int)
    requires first + |taps| <= |s|
    ensures Dot(taps, s + more, first) == Dot(taps, s, first)
  {
    if taps != [] {
      DotPrefix(taps[..|taps| - 1], s, more, first);
    }
  }

  lemma DecimatedPrefix(taps: seq<real>, decim: nat, s: seq<Cx>, more: seq<Cx>, count: nat)
    requires Span(count, decim) <= |s|
    ensures Decimated(taps, decim, s + more, count) == Decimated(taps, decim, s, count)
  {
    forall k | 0 <= k < count
      ensures Decimated(taps, decim, s + more, count)[k] == Decimated(taps, decim, s, count)[k]
    {
      SpanAdd(k + 1, count - k - 1, decim);
      DotPrefix(taps, s, more, Span(k + 1, decim) - |taps|);
    }
  }

  // Output j of a chunk that began at decimation phase `phase`, `before` samples into the
  // stream, is the filter's value at sample (j + 1) * decim - phase - 1 of the chunk, and
  // its stamp is late by phase + 1 samples: at least one, at most decim.
  predicate IsStamped(taps: seq<real>, decim: nat, s: seq<Cx>, before: nat, phase: nat,
                      chunkStart: nat, j: nat, one: Cx, stamp: nat)
  {
    var offset := Span(j + 1, decim) - phase - 1;
    && 0 <= offset < |s| - before
    && one == Convolved(taps, s, before + offset)
    && stamp - (chunkStart + offset) == phase + 1 <= decim
  }

  predicate AllStamped(taps: seq<real>, decim: nat, s: seq<Cx>, before: nat, phase: nat,
                       chunkStart: nat, out: seq<Cx>, stamps: seq<nat>)
    requires |out| == |stamps|
  {
    forall j :: 0 <= j < |out| ==> IsStamped(taps, decim, s, before, phase, chunkStart, j, out[j], stamps[j])
  }

  lemma OutputIsStamped(taps: seq<real>, decim: nat, s: seq<Cx>, first: nat, count: nat, phase: nat,
                        chunkStart: nat, j: nat, one: Cx)
    requires first + j < count && phase < decim && Span(count, decim) <= |s|
    requires one == Convolved(taps, s, Span(first + j + 1, decim) - 1)
    ensures IsStamped(taps, decim, s, Span(first, decim) + phase, phase, chunkStart, j, one,
                      chunkStart + Span(j + 1, decim))
  {
    SpanAdd(first, j + 1, decim);
    SpanAdd(first + j + 1, count - first - j - 1, decim);
  }

  lemma DecimatedNext(taps: seq<real>, decim: nat, s: seq<Cx>, fed: seq<Cx>, one: seq<Cx>)
    requires fed == Decimated(taps, decim, s, |fed|)
    requires one == [Convolved(taps, s, Span(|fed| + 1, decim) - 1)]
    ensures fed + one == Decimated(taps, decim, s, |fed| + 1)
  {}

  // The outputs `out` after `fed`, with their stamps.
  predicate Outputs(taps: seq<real>, decim: nat, s: seq<Cx>, fed: seq<Cx>,
                    chunkStart: nat, out: seq<Cx>, stamps: seq<nat>)
  {
    && |out| == |stamps| && fed + out == Decimated(taps, decim, s, |fed| + |out|)
    && forall j :: 0 <= j < |out| ==> stamps[j] == chunkStart + Span(j + 1, decim)
  }

  lemma OutputsNext(taps: seq<real>, decim: nat, s: seq<Cx>, fed: seq<Cx>,
                    chunkStart: nat, out: seq<Cx>, stamps: seq<nat>, one: seq<Cx>)
    requires Outputs(taps, decim, s, fed, chunkStart, out, stamps)
    requires one == [Convolved(taps, s, Span(|fed| + |out| + 1, decim) - 1)]
    ensures Outputs(taps, decim, s, fed, chunkStart, out + one, stamps + [chunkStart + Span(|out| + 1, decim)])
  {
    DecimatedNext(taps, decim, s, fed + out, one);
    assert fed + (out + one) == fed + out + one;
  }

  lemma OutputIs(taps: seq<real>, decim: nat, s: seq<Cx>, fed: seq<Cx>,
                 chunkStart: nat, out: seq<Cx>, stamps: seq<nat>, j: nat)
    requires Outputs(taps, decim, s, fed, chunkStart, out, stamps) && j < |out|
    ensures out[j] == Convolved(taps, s, Span(|fed| + j + 1, decim) - 1)
    ensures stamps[j] == chunkStart + Span(j + 1, decim)
  {
    assert out[j] == (fed + out)[|fed| + j];
  }

  lemma StampAll(taps: seq<real>, decim: nat, s: seq<Cx>, fed: seq<Cx>, phase: nat,
                 chunkStart: nat, out: seq<Cx>, stamps: seq<nat>)
    requires phase < decim && Span(|fed| + |out|, decim) <= |s|
    requires Outputs(taps, decim, s, fed, chunkStart, out, stamps)
    ensures AllStamped(taps, decim, s, Span(|fed|, decim) + phase, phase, chunkStart, out, stamps)
  {
    forall j | 0 <= j < |out|
      ensures IsStamped(taps, decim, s, Span(|fed|, decim) + phase, phase, chunkStart, j, out[j], stamps[j])
    {
      OutputIs(taps, decim, s, fed, chunkStart, out, stamps, j);
      OutputIsStamped(taps, decim, s, |fed|, |fed| + |out|, phase, chunkStart, j, out[j]);
    }
  }

  class Ddc {
    const taps: seq<real>
    const decim: nat
    const delay: array<Cx>
    var head: nat
    var phase: nat
    ghost var stream: seq<Cx>     // every sample since the filter was built
    ghost var fed: seq<Cx>        // every output

    // The taps-wide window at `head` is the last |taps| of the first `pos` samples of s,
    // and the two halves of the delay line agree.
    ghost predicate Window(s: seq<Cx>, pos: nat)
      reads this, delay
    {
      var n := |taps|;
      && n > 0 && delay.Length == 2 * n && head < n
      && (forall t :: 0 <= t < n ==> delay[t] == delay[t + n])
      && (forall t :: head <= t < head + n ==> delay[t] == At(s, pos - n + (t - head)))
    }

    ghost predicate Valid()
      reads this, delay
    {
      && Window(stream, |stream|) && phase < decim
      && |stream| == Span(|fed|, decim) + phase
      && fed == Decimated(taps, decim, stream, |fed|)
    }

    constructor (taps: seq<real>, decim: nat)
      requires |taps| > 0 && decim > 0
      ensures Valid() && fresh(delay) && stream == [] && fed == [] && this.taps == taps && this.decim == decim
    {
      this.taps, this.decim := taps, decim;
      delay := new Cx[2 * |taps|](_ => ZERO);
      head, phase, stream, fed := 0, 0, [], [];
    }

    method Push(mixed: Cx, ghost s: seq<Cx>, ghost pos: nat)
      requires Window(s, pos) && pos < |s| && s[pos] == mixed
      modifies delay, `head
      ensures Window(s, pos + 1)
    {
      delay[head] := mixed;
      delay[head + |taps|] := mixed;
      head := head + 1;
      if head == |taps| {
        head := 0;
        forall t | 0 <= t < |taps| ensures delay[t] == At(s, pos + 1 - |taps| + t) {
          assert delay[t] == delay[t + |taps|];
        }
      }
    }

    // The dot product over the contiguous window.
    method Fir(ghost s: seq<Cx>, ghost pos: nat) returns (acc: Cx)
      requires Window(s, pos)
      ensures acc == Convolved(taps, s, pos - 1)
    {
      acc := ZERO;
      for t := 0 to |taps|
        invariant acc == Dot(taps[..t], s, pos - |taps|)
      {
        assert taps[..t + 1][..t] == taps[..t];
        acc := Add(acc, Scale(delay[head + t], taps[t]));
      }
      assert taps[..|taps|] == taps;
    }

    // One sample: an output at the end of a group.
    method Step(mixed: Cx, ghost s: seq<Cx>, ghost pos: nat, ghost count: nat) returns (out: seq<Cx>)
      requires Window(s, pos) && pos < |s| && s[pos] == mixed
      requires phase < decim && pos == Span(count, decim) + phase
      modifies delay, `head, `phase
      ensures Window(s, pos + 1) && phase < decim && pos + 1 == Span(count + |out|, decim) + phase
      ensures out == [] || (out == [Convolved(taps, s, pos)] && pos + 1 == Span(count + 1, decim))
    {
      Push(mixed, s, pos);
      phase := phase + 1;
      out := [];
      if phase >= decim {
        phase := 0;
        var one := Fir(s, pos + 1);
        out := [one];
      }
    }

    // The loop over a chunk, the last part of the stream s.
    method FilterAll(mixed: seq<Cx>, chunkStart: nat, ghost before: nat, ghost s: seq<Cx>, ghost fed0: seq<Cx>)
      returns (out: seq<Cx>, stamps: seq<nat>)
      requires before + |mixed| == |s| && s[before..] == mixed
      requires Window(s, before) && phase < decim && before == Span(|fed0|, decim) + phase
      requires fed0 == Decimated(taps, decim, s, |fed0|)
      modifies delay, `head, `phase
      ensures Window(s, |s|) && phase < decim && |s| == Span(|fed0| + |out|, decim) + phase
      ensures Outputs(taps, decim, s, fed0, chunkStart, out, stamps)
    {
      out, stamps := [], [];
      var samplesInChunk := 0;
      for i := 0 to |mixed|
        invariant Window(s, before + i) && phase < decim
        invariant before + i == Span(|fed0| + |out|, decim) + phase
        invariant samplesInChunk == |out| && Outputs(taps, decim, s, fed0, chunkStart, out, stamps)
      {
        var one := Step(mixed[i], s, before + i, |fed0| + |out|);
        if one != [] {
          samplesInChunk := samplesInChunk + 1;
          SpanIs(samplesInChunk, decim);
          OutputsNext(taps, decim, s, fed0, chunkStart, out, stamps, one);
          out, stamps := out + one, stamps + [chunkStart + samplesInChunk * decim];
        }
      }
    }

    // The outputs and, for each, the stamp a lock on it would get: the chunk's anchor
    // plus `decim` for every output fed so far.
    method ProcessChunk(mixed: seq<Cx>, chunkStart: nat) returns (out: seq<Cx>, stamps: seq<nat>)
      requires Valid()
      modifies delay, `head, `phase, `stream, `fed
      ensures Valid() && stream == old(stream) + mixed && fed == old(fed) + out && |stamps| == |out|
      ensures AllStamped(taps, decim, stream, old(|stream|), old(phase), chunkStart, out, stamps)
    {
      ghost var s := stream + mixed;
      out, stamps := FilterChunk(mixed, chunkStart, s);
      StampAll(taps, decim, s, fed, old(phase), chunkStart, out, stamps);
      stream, fed := s, fed + out;
    }

    method FilterChunk(mixed: seq<Cx>, chunkStart: nat, ghost s: seq<Cx>) returns (out: seq<Cx>, stamps: seq<nat>)
      requires Valid() && s == stream + mixed
      modifies delay, `head, `phase
      ensures Window(s, |s|) && phase < decim && |s| == Span(|fed| + |out|, decim) + phase
      ensures Outputs(taps, decim, s, fed, chunkStart, out, stamps)
    {
      DecimatedPrefix(taps, decim, stream, mixed, |fed|);
      assert Window(s, |stream|);
      out, stamps := FilterAll(mixed, chunkStart, |stream|, s, fed);
    }
  }
}
