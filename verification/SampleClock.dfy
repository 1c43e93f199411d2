/**
 The decoder's symbol clock: how the drift accumulator shifts symbol boundaries by one
 input sample (the tail of `state_tick`), and how `lora_decoder_feed` cuts the input into
 symbol windows accordingly.
 */
module SampleClock {

  // sfo_cum, the net number of one-sample shifts to the left, and the symbols that drifted.
  datatype Drift = Drift(cum: real, net: int, symbols: nat)

  const NO_DRIFT := Drift(0.0, 0, 0)

  // The boundary shift chosen at the end of a symbol.
  function Shift(cum: real, hat: real): int {
    if hat == 0.0 then 0 else if cum + hat > 1.0 then 1 else if cum + hat < -1.0 then -1 else 0
  }

  // One input sample in output samples.
  function Adjustment(os: nat): (adj: real)
    requires os >= 1
    ensures 0.0 < adj <= 1.0
  {
    1.0 / os as real
  }

  // One symbol; `apply` says that the decoder is past the sync word.
  function Tick(d: Drift, apply: bool, hat: real, adj: real): Drift {
    if !apply then d
    else
      var shift := Shift(d.cum, hat);
      var cum := d.cum + hat;
      Drift(if shift > 0 then cum - adj else if shift < 0 then cum + adj else cum, d.net + shift, d.symbols + 1)
  }

  function After(apply: nat -> bool, hat: real, adj: real, k: nat): Drift {
    if k == 0 then NO_DRIFT else Tick(After(apply, hat, adj, k - 1), apply(k - 1), hat, adj)
  }

  predicate Balanced(d: Drift, hat: real, adj: real) {
    d.symbols as real * hat == d.cum + d.net as real * adj
  }

  lemma TickBalances(d: Drift, apply: bool, hat: real, adj: real)
    requires Balanced(d, hat, adj)
    ensures Balanced(Tick(d, apply, hat, adj), hat, adj)
  {
    var shift := Shift(d.cum, hat);
    assert (d.symbols + 1) as real * hat == d.symbols as real * hat + hat;
    assert (d.net + shift) as real * adj == d.net as real * adj + shift as real * adj;
  }

  // Drift is neither lost nor invented: what has accumulated is in sfo_cum or has been
  // turned into shifts.
  lemma {:induction false} DriftBalance(apply: nat -> bool, hat: real, adj: real, k: nat)
    ensures Balanced(After(apply, hat, adj, k), hat, adj)
  {
    if k > 0 {
      DriftBalance(apply, hat, adj, k - 1);
      TickBalances(After(apply, hat, adj, k - 1), apply(k - 1), hat, adj);
    }
  }

  // ---- Exactly when the accumulator stays bounded ----

  predicate Within(x: real, bound: real) {
    -bound <= x <= bound
  }

  lemma {:induction false} DriftBounded(apply: nat -> bool, hat: real, adj: real, k: nat)
    requires 0.0 < adj <= 1.0 && Within(hat, adj)
    ensures Within(After(apply, hat, adj, k).cum, 1.0)
  {
    if k > 0 {
      DriftBounded(apply, hat, adj, k - 1);
    }
  }

  ghost function Always(): nat -> bool { (i: nat) => true }

  ghost predicate AlwaysBounded(hat: real, adj: real) {
    forall k: nat :: Within(After(Always(), hat, adj, k).cum, 1.0)
  }

  function Ramp(k: nat, gain: real): real {
    if k == 0 then 0.0 else Ramp(k - 1, gain) + gain
  }

  // Drift faster than one shift per symbol outruns the correction.
  lemma {:induction false} DriftGrows(hat: real, adj: real, k: nat)
    requires adj > 0.0
    ensures hat > adj ==> After(Always(), hat, adj, k).cum >= Ramp(k, hat - adj)
    ensures hat < -adj ==> After(Always(), hat, adj, k).cum <= -Ramp(k, -hat - adj)
  {
    if k > 0 {
      DriftGrows(hat, adj, k - 1);
    }
  }

  lemma {:induction false} RampIs(k: nat, gain: real)
    ensures Ramp(k, gain) == k as real * gain
  {
    if k > 0 {
      RampIs(k - 1, gain);
      assert k as real * gain == (k - 1) as real * gain + gain;
    }
  }

  // For every gain per symbol there is a symbol by which it has exceeded one sample.
  lemma Outruns(gain: real) returns (k: nat)
    requires gain > 0.0
    ensures Ramp(k, gain) > 1.0
  {
    var q := 1.0 / gain;
    k := q.Floor + 1;
    assert q * gain == 1.0;
    Exceeds(k as real, q, gain);
    RampIs(k, gain);
  }

  lemma Exceeds(x: real, q: real, gain: real)
    requires gain > 0.0 && x > q
    ensures x * gain > q * gain
  {
    assert (x - q) * gain > 0.0;
  }

  // The accumulator never exceeds one sample exactly when the drift per symbol is at most
  // one input sample.
  lemma AlwaysBoundedIff(hat: real, adj: real)
    requires 0.0 < adj <= 1.0
    ensures AlwaysBounded(hat, adj) <==> Within(hat, adj)
  {
    if Within(hat, adj) {
      forall k: nat ensures Within(After(Always(), hat, adj, k).cum, 1.0) {
        DriftBounded(Always(), hat, adj, k);
      }
    } else {
      var k := Outruns(if hat > adj then hat - adj else -hat - adj);
      DriftGrows(hat, adj, k);
      assert !Within(After(Always(), hat, adj, k).cum, 1.0);
    }
  }

  // ---- Symbol windows ----

  // `skips` is what the sync stage adds to sto_skip_remaining at the end of a symbol.
  datatype Clock = Clock(apply: nat -> bool, hat: real, os: nat, spsym: nat, start: nat, skips: nat -> nat)

  predicate ValidClock(c: Clock) {
    c.os >= 1 && c.spsym >= 2
  }

  function State(c: Clock, k: nat): Drift
    requires ValidClock(c)
  {
    After(c.apply, c.hat, Adjustment(c.os), k)
  }

  // The samples skipped before symbol k.
  function Skipped(c: Clock, k: nat): nat {
    if k == 0 then 0 else Skipped(c, k - 1) + c.skips(k - 1)
  }

  // Where the window of symbol k starts in the input.
  function StartOf(c: Clock, k: nat): int
    requires ValidClock(c)
  {
    c.start + Skipped(c, k) + k * c.spsym - State(c, k).net
  }

  // A boundary moves to the left at the end of symbol k exactly when the drift so far, less
  // the moves so far, exceeds one output sample; to the right when it is below minus one.
  lemma BoundaryMovesIff(c: Clock, k: nat)
    requires ValidClock(c)
    ensures var d := State(c, k); var moved := State(c, k + 1).net - d.net;
      var ahead := (d.symbols + 1) as real * c.hat - d.net as real / c.os as real;
      && (moved == 1 <==> c.apply(k) && c.hat != 0.0 && ahead > 1.0)
      && (moved == -1 <==> c.apply(k) && c.hat != 0.0 && ahead < -1.0)
      && -1 <= moved <= 1
  {
    var d := State(c, k);
    DriftBalance(c.apply, c.hat, Adjustment(c.os), k);
    assert d.net as real * Adjustment(c.os) == d.net as real / c.os as real;
    assert (d.symbols + 1) as real * c.hat == d.symbols as real * c.hat + c.hat;
  }

  // Where it would start if boundaries could move by fractions of a sample.
  function Grid(c: Clock, k: nat): real
    requires ValidClock(c)
  {
    (c.start + Skipped(c, k) + k * c.spsym) as real - State(c, k).symbols as real * c.hat * c.os as real
  }

  // A window is off the drifting grid by exactly the accumulator.
  lemma WindowOffGrid(c: Clock, k: nat)
    requires ValidClock(c)
    ensures StartOf(c, k) as real - Grid(c, k) == State(c, k).cum * c.os as real
  {
    var d, adj := State(c, k), Adjustment(c.os);
    DriftBalance(c.apply, c.hat, adj, k);
    InInputSamples(d.symbols as real * c.hat, d.cum, d.net as real, adj, c.os as real);
  }

  lemma InInputSamples(drifted: real, cum: real, net: real, adj: real, os: real)
    requires drifted == cum + net * adj && os >= 1.0 && adj == 1.0 / os
    ensures drifted * os == cum * os + net
  {
    assert adj * os == 1.0;
    assert net * adj * os == net * (adj * os);
  }

  // With drift of at most one input sample per symbol, every window start is within one
  // output sample of the grid.
  lemma WindowOnGrid(c: Clock, k: nat)
    requires ValidClock(c) && Within(c.hat, Adjustment(c.os))
    ensures Within(StartOf(c, k) as real - Grid(c, k), c.os as real)
  {
    WindowOffGrid(c, k);
    DriftBounded(c.apply, c.hat, Adjustment(c.os), k);
    Scaled(State(c, k).cum, c.os as real);
  }

  lemma Scaled(x: real, os: real)
    requires Within(x, 1.0) && os >= 0.0
    ensures Within(x * os, os)
  {}

  // ---- The feed loop ----

  // w is the window of symbol k.
  ghost predicate IsWindow<T>(c: Clock, input: seq<T>, k: nat, w: seq<T>)
    requires ValidClock(c)
  {
    0 <= StartOf(c, k) <= StartOf(c, k) + c.spsym <= |input| && w == input[StartOf(c, k)..StartOf(c, k) + c.spsym]
  }

  ghost predicate AreWindows<T>(c: Clock, input: seq<T>, windows: seq<seq<T>>)
    requires ValidClock(c)
  {
    forall k :: 0 <= k < |windows| ==> IsWindow(c, input, k, windows[k])
  }

  lemma WindowsGrow<T>(c: Clock, input: seq<T>, x: T, windows: seq<seq<T>>)
    requires ValidClock(c) && AreWindows(c, input, windows)
    ensures AreWindows(c, input + [x], windows)
  {
    forall k | 0 <= k < |windows| ensures IsWindow(c, input + [x], k, windows[k]) {
      assert IsWindow(c, input, k, windows[k]);
    }
  }

  // No symbol both reuses its last sample and is followed by a skip.
  ghost predicate Separable(c: Clock)
    requires ValidClock(c)
  {
    forall k: nat :: State(c, k + 1).net > State(c, k).net ==> c.skips(k) == 0
  }

  lemma {:induction false} NoDriftYet(c: Clock, k: nat)
    requires ValidClock(c) && forall i: nat :: i < k ==> !c.apply(i)
    ensures State(c, k) == NO_DRIFT
  {
    if k > 0 {
      NoDriftYet(c, k - 1);
    }
  }

  // The sync stage skips samples no later than the symbol that starts the drift, so its
  // skips never meet a reused sample.
  lemma SyncSkipsAreSeparable(c: Clock, sync: nat)
    requires ValidClock(c) && Within(c.hat, 1.0)
    requires forall k: nat :: (k < sync ==> !c.apply(k)) && (k > sync ==> c.skips(k) == 0)
    ensures Separable(c)
  {
    forall k: nat | State(c, k + 1).net > State(c, k).net ensures c.skips(k) == 0 {
      if k <= sync {
        NoDriftYet(c, k);
      }
    }
  }

  class Feed<T(0)> {
    const clock: Clock
    const symbuf: array<T>
    var count: nat            // symbuf_count
    var skip: nat             // sto_skip_remaining
    var cum: real             // sfo_cum
    var ticks: nat            // symbols so far
    ghost var input: seq<T>   // every sample fed
    ghost var windows: seq<seq<T>>

    ghost predicate Valid()
      reads this, symbuf
    {
      && ValidClock(clock) && Separable(clock) && symbuf.Length == clock.spsym
      && AreWindows(clock, input, windows)
      && ticks == |windows| && cum == State(clock, ticks).cum
      && Filling()
    }

    // The buffer holds the start of the next window, or input is being skipped up to it.
    ghost predicate Filling()
      requires ValidClock(clock) && symbuf.Length == clock.spsym
      reads this, symbuf
    {
      var start := StartOf(clock, ticks);
      && count < clock.spsym && (skip > 0 ==> count == 0)
      && |input| + skip == start + count && 0 <= start
      && symbuf[..count] == if skip > 0 then [] else input[start..]
    }

    constructor (c: Clock, pending: nat)
      requires ValidClock(c) && Separable(c) && c.start == pending
      ensures Valid() && fresh(symbuf) && clock == c && input == [] && windows == []
    {
      clock := c;
      symbuf := new T[c.spsym];
      count, skip, cum, ticks, input, windows := 0, pending, 0.0, 0, [], [];
    }

    // state_tick, as far as the clock is concerned: the sync stage's skip, then the drift.
    method Tick() returns (shift: int)
      requires ValidClock(clock) && Separable(clock) && cum == State(clock, ticks).cum && skip == 0
      modifies `cum, `ticks, `skip
      ensures ticks == old(ticks) + 1 && cum == State(clock, ticks).cum
      ensures skip == clock.skips(old(ticks)) && -1 <= shift <= 1 && (shift > 0 ==> skip == 0)
      ensures StartOf(clock, ticks) == StartOf(clock, old(ticks)) + clock.spsym - shift + skip
    {
      var adj := Adjustment(clock.os);
      shift := 0;
      skip := skip + clock.skips(ticks);
      if clock.apply(ticks) && clock.hat != 0.0 {
        cum := cum + clock.hat;
        if cum > 1.0 {
          shift := 1;
          cum := cum - adj;
        } else if cum < -1.0 {
          shift := -1;
          cum := cum + adj;
        }
      }
      assert State(clock, ticks + 1).net == State(clock, ticks).net + shift;
      ticks := ticks + 1;
      assert ticks * clock.spsym == old(ticks) * clock.spsym + clock.spsym;
    }

    // A full buffer: hand it to the decoder and start the next window.
    method Emit()
      requires ValidClock(clock) && Separable(clock) && symbuf.Length == clock.spsym == count && skip == 0
      requires cum == State(clock, ticks).cum
      requires 0 <= StartOf(clock, ticks) && |input| == StartOf(clock, ticks) + count
      requires symbuf[..] == input[StartOf(clock, ticks)..]
      modifies symbuf, `count, `skip, `cum, `ticks
      ensures ticks == old(ticks) + 1 && cum == State(clock, ticks).cum && Filling()
    {
      var shift := Tick();
      if shift > 0 {
        symbuf[0] := symbuf[clock.spsym - 1];
        count := 1;
      } else if shift < 0 {
        skip := skip + 1;
        count := 0;
      } else {
        count := 0;
      }
    }

    // Store a sample of the current window.
    method Put(x: T)
      requires ValidClock(clock) && symbuf.Length == clock.spsym && Filling() && skip == 0
      modifies symbuf, `count, `input
      ensures input == old(input) + [x] && count == old(count) + 1
      ensures |input| == StartOf(clock, ticks) + count && symbuf[..count] == input[StartOf(clock, ticks)..]
    {
      input := input + [x];
      symbuf[count] := x;
      count := count + 1;
    }

    method Complete()
      requires ValidClock(clock) && Separable(clock) && symbuf.Length == clock.spsym == count && skip == 0
      requires AreWindows(clock, input, windows) && ticks == |windows| && cum == State(clock, ticks).cum
      requires 0 <= StartOf(clock, ticks) && |input| == StartOf(clock, ticks) + count
      requires symbuf[..count] == input[StartOf(clock, ticks)..]
      modifies symbuf, `count, `skip, `cum, `ticks, `windows
      ensures Valid() && windows == old(windows) + [old(symbuf[..])]
    {
      assert symbuf[..] == symbuf[..count];
      assert IsWindow(clock, input, ticks, symbuf[..]);
      windows := windows + [symbuf[..]];
      Emit();
    }

    method FeedOne(x: T)
      requires Valid()
      modifies symbuf, `count, `skip, `cum, `ticks, `input, `windows
      ensures Valid() && input == old(input) + [x] && old(windows) <= windows
    {
      WindowsGrow(clock, input, x, windows);
      if skip > 0 {
        input := input + [x];
        skip := skip - 1;
        return;
      }
      Put(x);
      if count == clock.spsym {
        Complete();
      }
    }

    // Feeding any samples: every window so far is exactly its stretch of the input.
    method Process(samples: seq<T>)
      requires Valid()
      modifies symbuf, `count, `skip, `cum, `ticks, `input, `windows
      ensures Valid() && input == old(input) + samples && old(windows) <= windows
    {
      ghost var before := windows;
      for i := 0 to |samples|
        invariant Valid() && input == old(input) + samples[..i] && before <= windows
      {
        assert samples[..i + 1] == samples[..i] + [samples[i]];
        FeedOne(samples[i]);
      }
      assert samples[..|samples|] == samples;
    }
  }
}
