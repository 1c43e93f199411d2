/**
 Which input sample each dechirp point reads (`downsample_symbol`): the oversampling grid
 within a window, a fine shift for the drift not yet turned into boundary shifts, and a
 clamp to the window.
 */
module SymbolPoints {
  import opened SampleClock

  // lrintf: to the nearest integer, ties to even.
  function RoundEven(x: real): int {
    var f := x.Floor;
    var rest := x - f as real;
    if rest < 0.5 then f else if rest > 0.5 then f + 1 else if f % 2 == 0 then f else f + 1
  }

  // The nearest integer, the even one of two.
  lemma RoundEvenIs(x: real, n: int)
    ensures RoundEven(x) == n <==>
      -0.5 <= x - n as real <= 0.5 && ((x - n as real == 0.5 || x - n as real == -0.5) ==> n % 2 == 0)
  {}

  predicate Tie(x: real) {
    x - x.Floor as real == 0.5
  }

  // How rounding before and after a whole shift can disagree: not at all, or by one at a tie.
  function Slip(total: real, net: int): int {
    if !(Tie(total) && net % 2 != 0) then 0 else if total.Floor % 2 == 0 then -1 else 1
  }

  lemma RoundShift(total: real, net: int)
    ensures RoundEven(total) == RoundEven(total - net as real) + net + Slip(total, net)
  {
    assert (total - net as real).Floor == total.Floor - net;
  }

  function Clamp(x: int, low: int, high: int): int {
    if x < low then low else if x > high then high else x
  }

  // Point j within a window, before the fine shift.
  function Point(os: nat, j: nat, phase: int): int {
    os / 2 + os * j - Clamp(phase, 0, os - 1)
  }

  // Points are one output sample apart; the first is in the middle of the first one, moved
  // to the left by the phase as far as there are samples.
  lemma PointsAre(os: nat, j: nat, phase: int)
    requires os >= 1
    ensures Point(os, j + 1, phase) == Point(os, j, phase) + os
    ensures 0 <= phase < os ==> Point(os, 0, phase) == os / 2 - phase
    ensures phase < 0 ==> Point(os, 0, phase) == os / 2
    ensures phase >= os ==> Point(os, 0, phase) == os / 2 - os + 1
  {}

  // The total drift before symbol k, with the fraction estimated at lock, in input samples;
  // and the part of it that is left for the fine shift.
  function TotalDrift(c: Clock, k: nat, stoFrac: real): real
    requires ValidClock(c)
  {
    (stoFrac + State(c, k).symbols as real * c.hat) * c.os as real
  }

  function FineDrift(c: Clock, k: nat, stoFrac: real): real
    requires ValidClock(c)
  {
    (stoFrac + State(c, k).cum) * c.os as real
  }

  // The index into the window before it is clamped.
  function RawIndex(c: Clock, k: nat, j: nat, stoFrac: real, phase: int): int
    requires ValidClock(c)
  {
    Point(c.os, j, phase) - RoundEven(FineDrift(c, k, stoFrac))
  }

  // The input sample that point j of symbol k reads.  Without oversampling the window is
  // used as it is.
  function Picked(c: Clock, k: nat, j: nat, stoFrac: real, phase: int): int
    requires ValidClock(c)
  {
    StartOf(c, k) + if c.os == 1 then j else Clamp(RawIndex(c, k, j, stoFrac, phase), 0, c.spsym - 1)
  }

  // The one it would read if windows never moved and all drift were a fine shift.
  function Ideal(c: Clock, k: nat, j: nat, stoFrac: real, phase: int): int
    requires ValidClock(c)
  {
    c.start + Skipped(c, k) + k * c.spsym + Point(c.os, j, phase) - RoundEven(TotalDrift(c, k, stoFrac))
  }

  lemma SharedFraction(stoFrac: real, cum: real, drifted: real, net: real, os: real)
    requires drifted * os == cum * os + net
    ensures (stoFrac + cum) * os == (stoFrac + drifted) * os - net
  {
    assert (stoFrac + cum) * os == stoFrac * os + cum * os;
    assert (stoFrac + drifted) * os == stoFrac * os + drifted * os;
  }

  lemma RemainingDrift(c: Clock, k: nat, stoFrac: real)
    requires ValidClock(c)
    ensures FineDrift(c, k, stoFrac) == TotalDrift(c, k, stoFrac) - State(c, k).net as real
  {
    var d, adj := State(c, k), Adjustment(c.os);
    DriftBalance(c.apply, c.hat, adj, k);
    InInputSamples(d.symbols as real * c.hat, d.cum, d.net as real, adj, c.os as real);
    SharedFraction(stoFrac, d.cum, d.symbols as real * c.hat, d.net as real, c.os as real);
  }

  // Before the clamp, boundary shifts and fine shift add up to the total drift up to the slip.
  lemma RawOffset(c: Clock, k: nat, j: nat, stoFrac: real, phase: int)
    requires ValidClock(c)
    ensures StartOf(c, k) + RawIndex(c, k, j, stoFrac, phase)
         == Ideal(c, k, j, stoFrac, phase) + Slip(TotalDrift(c, k, stoFrac), State(c, k).net)
  {
    RemainingDrift(c, k, stoFrac);
    RoundShift(TotalDrift(c, k, stoFrac), State(c, k).net);
  }

  // Without oversampling there is no fine shift: the point is right exactly when the
  // boundary shifts so far are the rounded total drift.
  lemma PlainPickedIsIdealIff(c: Clock, k: nat, j: nat, stoFrac: real, phase: int)
    requires ValidClock(c) && c.os == 1
    ensures Picked(c, k, j, stoFrac, phase) == Ideal(c, k, j, stoFrac, phase)
       <==> State(c, k).net == RoundEven(TotalDrift(c, k, stoFrac))
  {}

  // With oversampling it is right exactly when the index is in the window and no tie after
  // an odd net shift was rounded the other way, or when the clamp happens to undo that.
  lemma PickedIsIdealIff(c: Clock, k: nat, j: nat, stoFrac: real, phase: int)
    requires ValidClock(c) && c.os >= 2
    ensures var raw, slip := RawIndex(c, k, j, stoFrac, phase), Slip(TotalDrift(c, k, stoFrac), State(c, k).net);
      Picked(c, k, j, stoFrac, phase) == Ideal(c, k, j, stoFrac, phase)
      <==> (if 0 <= raw < c.spsym then slip == 0 else (raw == -1 && slip == -1) || (raw == c.spsym && slip == 1))
  {
    RawOffset(c, k, j, stoFrac, phase);
  }

  // ---- How far the clamp reaches ----

  lemma RoundBound(x: real, bound: real)
    requires Within(x, bound)
    ensures -bound - 0.5 <= RoundEven(x) as real <= bound + 0.5
  {}

  lemma FineBound(stoFrac: real, cum: real, os: real)
    requires Within(stoFrac, 0.5) && Within(cum, 1.0) && os >= 0.0
    ensures Within((stoFrac + cum) * os, 1.5 * os)
  {
    assert (stoFrac + cum) * os <= 1.5 * os;
    assert (stoFrac + cum) * os >= -1.5 * os;
  }

  lemma Gap(a: nat, b: nat, m: nat, os: nat)
    requires a + m <= b
    ensures b * os >= a * os + m * os
  {
    var rest := b - a - m;
    assert b * os == a * os + m * os + rest * os;
  }

  lemma PointBounds(os: nat, n: nat, j: nat, phase: int, fine: int)
    requires os >= 1 && 2 <= j && j + 3 <= n
    requires -(3 * os + 1) <= 2 * fine <= 3 * os + 1
    ensures 0 <= Point(os, j, phase) - fine < n * os
  {
    Gap(0, j, 2, os);
    Gap(j, n, 3, os);
    InBounds(os, os * j, n * os, Clamp(phase, 0, os - 1), fine);
  }

  lemma InBounds(os: nat, at: int, end: int, phase: int, fine: int)
    requires os >= 1 && 2 * os <= at && at + 3 * os <= end && 0 <= phase < os
    requires -(3 * os + 1) <= 2 * fine <= 3 * os + 1
    ensures 0 <= os / 2 + at - phase - fine < end
  {}

  // For drift of at most one input sample per symbol and a lock fraction of at most one
  // half, only the first two and the last two points of a symbol can be clamped.
  lemma ClampOnlyAtEdges(c: Clock, k: nat, n: nat, j: nat, stoFrac: real, phase: int)
    requires ValidClock(c) && c.spsym == n * c.os && Within(c.hat, Adjustment(c.os)) && Within(stoFrac, 0.5)
    requires 2 <= j && j + 3 <= n
    ensures 0 <= RawIndex(c, k, j, stoFrac, phase) < c.spsym
  {
    DriftBounded(c.apply, c.hat, Adjustment(c.os), k);
    FineBound(stoFrac, State(c, k).cum, c.os as real);
    RoundBound(FineDrift(c, k, stoFrac), 1.5 * c.os as real);
    PointBounds(c.os, n, j, phase, RoundEven(FineDrift(c, k, stoFrac)));
  }

  // ---- Inputs on which a point is off ----

  // The first three symbols drift.
  predicate Steady(c: Clock, hat: real, os: nat, n: nat) {
    c.hat == hat && c.os == os >= 1 && c.spsym == n * os >= 2 && c.apply(0) && c.apply(1) && c.apply(2)
  }

  lemma FirstSymbol(apply: nat -> bool, hat: real, adj: real)
    requires apply(0) && Within(hat, 1.0)
    ensures After(apply, hat, adj, 1) == Drift(hat, 0, 1)
  {
    assert After(apply, hat, adj, 0) == NO_DRIFT;
  }

  // No oversampling, drift 0.7: after one symbol every point is one sample off.
  lemma PlainPointIsOff(c: Clock, j: nat)
    requires Steady(c, 0.7, 1, 128)
    ensures Picked(c, 1, j, 0.0, 0) == Ideal(c, 1, j, 0.0, 0) + 1
  {
    FirstSymbol(c.apply, c.hat, Adjustment(c.os));
    assert TotalDrift(c, 1, 0.0) == 0.7;
  }

  // The first point of a window is clamped.
  lemma ClampedPointIsOff(c: Clock)
    requires Steady(c, 0.4, 2, 128)
    ensures Picked(c, 1, 0, 0.5, 0) != Ideal(c, 1, 0, 0.5, 0)
    ensures Slip(TotalDrift(c, 1, 0.5), State(c, 1).net) == 0
  {
    FirstSymbol(c.apply, c.hat, Adjustment(c.os));
    assert TotalDrift(c, 1, 0.5) == 1.8 && FineDrift(c, 1, 0.5) == 1.8;
    assert RawIndex(c, 1, 0, 0.5, 0) == -1;
    PickedIsIdealIff(c, 1, 0, 0.5, 0);
  }

  lemma ThreeSymbols(apply: nat -> bool, hat: real, adj: real)
    requires apply(0) && apply(1) && apply(2) && hat == adj == 0.5
    ensures After(apply, hat, adj, 3) == Drift(1.0, 1, 3)
  {
    FirstSymbol(apply, hat, adj);
    assert After(apply, hat, adj, 2) == Tick(After(apply, hat, adj, 1), true, hat, adj);
    assert After(apply, hat, adj, 3) == Tick(After(apply, hat, adj, 2), true, hat, adj);
  }

  lemma DriftsAfterThree(c: Clock, stoFrac: real)
    requires Steady(c, 0.5, 2, 128)
    ensures State(c, 3).net == 1 && TotalDrift(c, 3, stoFrac) == 2.0 * stoFrac + 3.0
    ensures FineDrift(c, 3, stoFrac) == 2.0 * stoFrac + 2.0
  {
    assert Adjustment(c.os) == 0.5;
    ThreeSymbols(c.apply, c.hat, Adjustment(c.os));
  }

  // A run that reaches a tie after one boundary shift: a point inside the window is off.
  lemma TiedPointIsOff(c: Clock)
    requires Steady(c, 0.5, 2, 128)
    ensures 0 <= RawIndex(c, 3, 60, 0.25, 0) < c.spsym && Picked(c, 3, 60, 0.25, 0) != Ideal(c, 3, 60, 0.25, 0)
  {
    DriftsAfterThree(c, 0.25);
    assert RawIndex(c, 3, 60, 0.25, 0) == 119;
    PickedIsIdealIff(c, 3, 60, 0.25, 0);
  }

  // The same run with another fraction: the clamp undoes the slip of the first point.
  lemma ClampUndoesTie(c: Clock)
    requires Steady(c, 0.5, 2, 128)
    ensures RawIndex(c, 3, 0, -0.25, 0) == -1 && Picked(c, 3, 0, -0.25, 0) == Ideal(c, 3, 0, -0.25, 0)
  {
    DriftsAfterThree(c, -0.25);
    assert RawIndex(c, 3, 0, -0.25, 0) == -1;
    PickedIsIdealIff(c, 3, 0, -0.25, 0);
  }
}
