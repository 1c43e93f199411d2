/**
 The mixer in front of the focused worker's filter: a rotating phasor, multiplied up
 sample by sample and renormalised from time to time (`focused_process_chunk`).
 */
module Mixer {
  import opened FocusedDdc

  const RENORM := 4096

  const ONE := Cx(1.0, 0.0)

  function Mul(a: Cx, b: Cx): Cx {
    Cx(a.re * b.re - a.im * b.im, a.re * b.im + a.im * b.re)
  }

  function Norm(a: Cx): real {
    a.re * a.re + a.im * a.im
  }

  // The ideal rotation after n samples.
  function Power(step: Cx, n: nat): Cx {
    if n == 0 then ONE else Mul(Power(step, n - 1), step)
  }

  // sqrtf, as far as the mixer needs it
  ghost predicate IsRoot(root: real -> real) {
    forall x :: x > 0.0 ==> root(x) > 0.0 && root(x) * root(x) == x
  }

  function Shrunk(p: Cx, length: real): Cx
    requires length > 0.0
  {
    Cx(p.re / length, p.im / length)
  }

  // The running phasor after n samples: renormalised whenever n is a multiple of RENORM.
  ghost function Phasor(step: Cx, root: real -> real, n: nat): (p: Cx)
    requires Norm(step) > 0.0 && IsRoot(root)
    ensures Norm(p) > 0.0
  {
    if n == 0 then ONE
    else
      var p := Mul(Phasor(step, root, n - 1), step);
      NormMul(Phasor(step, root, n - 1), step);
      if n % RENORM == 0 then
        ShrunkLength(p, root(Norm(p)));
        Shrunk(p, root(Norm(p)))
      else p
  }

  // What renormalisation has scaled the ideal rotation by.
  ghost function Gain(step: Cx, root: real -> real, n: nat): (k: real)
    requires Norm(step) > 0.0 && IsRoot(root)
    ensures k > 0.0
  {
    if n == 0 then 1.0
    else if n % RENORM == 0 then
      NormMul(Phasor(step, root, n - 1), step);
      QuotientPositive(Gain(step, root, n - 1), root(Norm(Mul(Phasor(step, root, n - 1), step))));
      Gain(step, root, n - 1) / root(Norm(Mul(Phasor(step, root, n - 1), step)))
    else Gain(step, root, n - 1)
  }

  function RealPower(x: real, n: nat): real {
    if n == 0 then 1.0 else RealPower(x, n - 1) * x
  }

  // ---- Lengths and directions ----

  lemma NormMul(a: Cx, b: Cx)
    ensures Norm(Mul(a, b)) == Norm(a) * Norm(b)
  {
    Squares(a.re, a.im, b.re, b.im);
  }

  lemma Squares(a: real, b: real, c: real, d: real)
    ensures (a * c - b * d) * (a * c - b * d) + (a * d + b * c) * (a * d + b * c) == (a * a + b * b) * (c * c + d * d)
  {
    var ac, bd, ad, bc := a * c, b * d, a * d, b * c;
    assert (ac - bd) * (ac - bd) == ac * ac - 2.0 * (ac * bd) + bd * bd;
    assert (ad + bc) * (ad + bc) == ad * ad + 2.0 * (ad * bc) + bc * bc;
    assert ac * bd == ad * bc;
    assert (a * a + b * b) * (c * c + d * d) == ac * ac + ad * ad + bc * bc + bd * bd;
  }

  lemma ShrunkLength(p: Cx, length: real)
    requires length > 0.0 && length * length == Norm(p)
    ensures Norm(Shrunk(p, length)) == 1.0
  {
    var k := 1.0 / length;
    assert p.re / length == p.re * k && p.im / length == p.im * k;
    ScaledSquares(p.re, p.im, k);
    InverseSquares(k, length);
  }

  lemma ScaledSquares(a: real, b: real, k: real)
    ensures (a * k) * (a * k) + (b * k) * (b * k) == (k * k) * (a * a + b * b)
  {}

  lemma InverseSquares(k: real, l: real)
    requires k * l == 1.0
    ensures (k * k) * (l * l) == 1.0
  {
    assert (k * k) * (l * l) == (k * l) * (k * l);
  }

  lemma QuotientPositive(x: real, y: real)
    requires x > 0.0 && y > 0.0
    ensures x / y > 0.0
  {
    assert (x / y) * y == x;
    ProductSign(x / y, y);
  }

  lemma ProductSign(x: real, y: real)
    requires y > 0.0
    ensures x * y > 0.0 ==> x > 0.0
  {}

  lemma ScaleMul(a: Cx, b: Cx, k: real)
    ensures Mul(Scale(a, k), b) == Scale(Mul(a, b), k)
  {
    assert (a.re * k) * b.re - (a.im * k) * b.im == (a.re * b.re - a.im * b.im) * k;
    assert (a.re * k) * b.im + (a.im * k) * b.re == (a.re * b.im + a.im * b.re) * k;
  }

  lemma ScaleShrunk(a: Cx, k: real, length: real)
    requires length > 0.0
    ensures Shrunk(Scale(a, k), length) == Scale(a, k / length)
  {
    assert (a.re * k) / length == a.re * (k / length);
    assert (a.im * k) / length == a.im * (k / length);
  }

  // The phasor always points where the ideal rotation points.
  lemma {:induction false} PhasorDirection(step: Cx, root: real -> real, n: nat)
    requires Norm(step) > 0.0 && IsRoot(root)
    ensures Phasor(step, root, n) == Scale(Power(step, n), Gain(step, root, n))
  {
    if n > 0 {
      PhasorDirection(step, root, n - 1);
      var before, k := Phasor(step, root, n - 1), Gain(step, root, n - 1);
      NormMul(before, step);
      ScaleMul(Power(step, n - 1), step, k);
      if n % RENORM == 0 {
        ScaleShrunk(Power(step, n), k, root(Norm(Mul(before, step))));
      }
    }
  }

  lemma PhasorStep(step: Cx, root: real -> real, n: nat)
    requires Norm(step) > 0.0 && IsRoot(root) && n > 0
    ensures Norm(Phasor(step, root, n))
            == if n % RENORM == 0 then 1.0 else Norm(Phasor(step, root, n - 1)) * Norm(step)
  {
    var p := Mul(Phasor(step, root, n - 1), step);
    NormMul(Phasor(step, root, n - 1), step);
    if n % RENORM == 0 {
      ShrunkLength(p, root(Norm(p)));
    }
  }

  // Its length depends on the samples since the last renormalisation only.
  lemma {:induction false} PhasorLength(step: Cx, root: real -> real, n: nat)
    requires Norm(step) > 0.0 && IsRoot(root)
    ensures Norm(Phasor(step, root, n)) == RealPower(Norm(step), n % RENORM)
  {
    if n > 0 {
      PhasorLength(step, root, n - 1);
      PhasorStep(step, root, n);
      NextInBlock(n);
      PowerNext(Norm(step), (n - 1) % RENORM, n % RENORM);
    }
  }

  // The samples since the last renormalisation, counted one by one.
  lemma NextInBlock(n: nat)
    requires n > 0
    ensures n % RENORM == 0 || n % RENORM == (n - 1) % RENORM + 1
  {}

  lemma PowerNext(x: real, k: nat, m: nat)
    requires m == 0 || m == k + 1
    ensures RealPower(x, m) == if m == 0 then 1.0 else RealPower(x, k) * x
  {}

  // So it is of unit length after every renormalisation, whatever the step's rounding.
  lemma RenormalisedIsUnit(step: Cx, root: real -> real, blocks: nat)
    requires Norm(step) > 0.0 && IsRoot(root)
    ensures Norm(Phasor(step, root, blocks * RENORM)) == 1.0
  {
    PhasorLength(step, root, blocks * RENORM);
  }

  lemma {:induction false} PowerOfOne(n: nat)
    ensures RealPower(1.0, n) == 1.0
  {
    if n > 0 { PowerOfOne(n - 1); }
  }

  // With a step of unit length renormalisation changes nothing.
  lemma {:induction false} UnitStepIsExact(step: Cx, root: real -> real, n: nat)
    requires Norm(step) == 1.0 && IsRoot(root)
    ensures Phasor(step, root, n) == Power(step, n)
  {
    if n > 0 {
      UnitStepIsExact(step, root, n - 1);
      var before := Phasor(step, root, n - 1);
      NormMul(before, step);
      PhasorLength(step, root, n - 1);
      PowerOfOne((n - 1) % RENORM);
      UnitRoot(root);
    }
  }

  lemma UnitRoot(root: real -> real)
    requires IsRoot(root)
    ensures root(1.0) == 1.0
  {
    UnitSquare(root(1.0));
  }

  lemma UnitSquare(r: real)
    requires r > 0.0 && r * r == 1.0
    ensures r == 1.0
  {
    SquareSide(r);
  }

  lemma SquareSide(r: real)
    requires r > 0.0
    ensures r > 1.0 ==> r * r > 1.0
    ensures r < 1.0 ==> r * r < 1.0
  {}

  // ---- The shifted stream ----

  ghost function Turned(step: Cx, root: real -> real, x: Cx, i: nat): Cx
    requires Norm(step) > 0.0 && IsRoot(root)
  {
    Mul(x, Phasor(step, root, i))
  }

  // The stream shifted in frequency.
  ghost function Mixed(step: Cx, root: real -> real, raw: seq<Cx>): (mixed: seq<Cx>)
    requires Norm(step) > 0.0 && IsRoot(root)
    ensures |mixed| == |raw|
  {
    if raw == [] then []
    else
      var n := |raw| - 1;
      Mixed(step, root, raw[..n]) + [Turned(step, root, raw[n], n)]
  }

  lemma MixedNext(step: Cx, root: real -> real, raw: seq<Cx>, x: Cx)
    requires Norm(step) > 0.0 && IsRoot(root)
    ensures Mixed(step, root, raw + [x]) == Mixed(step, root, raw) + [Turned(step, root, x, |raw|)]
  {
    assert (raw + [x])[..|raw|] == raw;
  }

  // Every mixed sample is the raw one turned by the ideal rotation and scaled by the gain.
  lemma {:induction false} MixedIsShifted(step: Cx, root: real -> real, raw: seq<Cx>, i: nat)
    requires Norm(step) > 0.0 && IsRoot(root) && i < |raw|
    ensures Mixed(step, root, raw)[i] == Scale(Mul(raw[i], Power(step, i)), Gain(step, root, i))
    ensures Norm(step) == 1.0 ==> Mixed(step, root, raw)[i] == Mul(raw[i], Power(step, i))
  {
    var n := |raw| - 1;
    if i < n {
      MixedIsShifted(step, root, raw[..n], i);
    } else {
      PhasorDirection(step, root, i);
      MulScale(raw[i], Power(step, i), Gain(step, root, i));
      if Norm(step) == 1.0 { UnitStepIsExact(step, root, i); }
    }
  }

  // cos and sin of the multiples of one angle
  ghost predicate AreTurns(cos: nat -> real, sin: nat -> real) {
    && cos(0) == 1.0 && sin(0) == 0.0
    && forall n: nat ::
      && cos(n + 1) == cos(n) * cos(1) - sin(n) * sin(1)
      && sin(n + 1) == sin(n) * cos(1) + cos(n) * sin(1)
  }

  // n samples after the start the ideal rotation has turned by n times the step's angle.
  lemma {:induction false} PowerTurns(cos: nat -> real, sin: nat -> real, n: nat)
    requires AreTurns(cos, sin)
    ensures Power(Cx(cos(1), sin(1)), n) == Cx(cos(n), sin(n))
  {
    if n > 0 {
      PowerTurns(cos, sin, n - 1);
      assert cos(n - 1 + 1) == cos(n - 1) * cos(1) - sin(n - 1) * sin(1);
    }
  }

  // A tone of frequency b mixed by a step of frequency a becomes one of frequency a + b.
  lemma ToneShifted(a: real, b: real, cos: real -> real, sin: real -> real)
    requires cos(a + b) == cos(b) * cos(a) - sin(b) * sin(a) && sin(a + b) == sin(b) * cos(a) + cos(b) * sin(a)
    ensures Mul(Cx(cos(b), sin(b)), Cx(cos(a), sin(a))) == Cx(cos(a + b), sin(a + b))
  {}

  lemma MulScale(a: Cx, b: Cx, k: real)
    ensures Mul(a, Scale(b, k)) == Scale(Mul(a, b), k)
  {
    assert a.re * (b.re * k) - a.im * (b.im * k) == (a.re * b.re - a.im * b.im) * k;
    assert a.re * (b.im * k) + a.im * (b.re * k) == (a.re * b.im + a.im * b.re) * k;
  }

  class FocusedWorker {
    const step: Cx
    const root: real -> real      // sqrtf
    const ddc: Ddc
    var phasor: Cx
    var renormCount: nat
    ghost var raw: seq<Cx>        // every sample since the slot was applied

    // The mixer is at the rotation of the next sample.
    ghost predicate Rotated(n: nat)
      reads `phasor, `renormCount
    {
      && Norm(step) > 0.0 && IsRoot(root)
      && phasor == Phasor(step, root, n) && renormCount == n % RENORM
    }

    ghost predicate Valid()
      reads this, ddc, ddc.delay
    {
      Rotated(|raw|) && ddc.Valid() && ddc.stream == Mixed(step, root, raw)
    }

    constructor (step: Cx, root: real -> real, taps: seq<real>, decim: nat)
      requires Norm(step) > 0.0 && IsRoot(root) && |taps| > 0 && decim > 0
      ensures Valid() && raw == [] && this.step == step && this.root == root
      ensures ddc.taps == taps && ddc.decim == decim
    {
      this.step, this.root := step, root;
      ddc := new Ddc(taps, decim);
      phasor, renormCount, raw := ONE, 0, [];
    }

    method MixOne(x: Cx, ghost n: nat) returns (mixed: Cx)
      requires Rotated(n)
      modifies `phasor, `renormCount
      ensures Rotated(n + 1) && mixed == Turned(step, root, x, n)
    {
      mixed := Mul(x, phasor);
      NormMul(phasor, step);
      phasor := Mul(phasor, step);
      renormCount := renormCount + 1;
      if renormCount >= RENORM {
        renormCount := 0;
        phasor := Shrunk(phasor, root(Norm(phasor)));
      }
    }

    method MixAll(samples: seq<Cx>) returns (mixed: seq<Cx>)
      requires Rotated(|raw|)
      modifies `phasor, `renormCount
      ensures Rotated(|raw| + |samples|)
      ensures Mixed(step, root, raw) + mixed == Mixed(step, root, raw + samples)
    {
      mixed := [];
      ghost var all := raw;
      for i := 0 to |samples|
        invariant all == raw + samples[..i] && Rotated(|all|)
        invariant Mixed(step, root, raw) + mixed == Mixed(step, root, all)
      {
        var one := MixOne(samples[i], |all|);
        MixedNext(step, root, all, samples[i]);
        assert Mixed(step, root, raw) + (mixed + [one]) == Mixed(step, root, raw) + mixed + [one];
        mixed, all := mixed + [one], all + [samples[i]];
      }
      assert all == raw + samples;
    }

    // Everything fed to the decoder is the decimated convolution of the frequency-shifted
    // stream, whatever chunks it came in, with its stamp.  The mixer does not depend on the
    // filter, so a chunk is mixed before it is filtered, where the source alternates.
    method Process(samples: seq<Cx>, chunkStart: nat) returns (out: seq<Cx>, stamps: seq<nat>)
      requires Valid()
      modifies `phasor, `renormCount, `raw, ddc.delay, ddc`head, ddc`phase, ddc`stream, ddc`fed
      ensures Valid() && raw == old(raw) + samples && ddc.fed == old(ddc.fed) + out
      ensures ddc.fed == Decimated(ddc.taps, ddc.decim, Mixed(step, root, raw), |ddc.fed|)
      ensures |stamps| == |out| && AllStamped(ddc.taps, ddc.decim, Mixed(step, root, raw),
                |old(raw)|, old(ddc.phase), chunkStart, out, stamps)
    {
      var mixed := MixAll(samples);
      out, stamps := ddc.ProcessChunk(mixed, chunkStart);
      raw := raw + samples;
    }
  }
}
