/**
 How closely the greedy quantizer follows its input: the error of one sample, recovery
 from slope overload, and convergence on a constant input.
 */
module AdpcmBounds {
  import opened AdpcmPredictor
  import opened AdpcmSearch
  import opened AdpcmTrace

  function Abs(x: int): nat
  {
    if x < 0 then -x else x
  }

  // One sample with no lookahead and no noise shaping.
  function GreedyStep(p: Predictor, target: int): Predictor
  {
    Advance(p, Greedy(p, target))
  }

  lemma PlainEncodeStep(c: Channel, samples: seq<AdpcmPredictor.Sample>)
    requires samples != []
    ensures EncodeStep(Config(Ima(), Off, 0), c, samples).1.pred == GreedyStep(c.pred, samples[0])
  {
  }

  function Signed(negative: bool, x: int): int
  {
    if negative then -x else x
  }

  // The distance to the target is out of reach of a single nibble.
  predicate Overloaded(p: Predictor, target: int)
  {
    Abs(target - p.pcm) >= 2 * Step(p.index)
  }

  // ----- one sample -----

  // A magnitude m stands for (2m + 1) eighths of a step, less at most 17/8 of rounding.
  lemma TrialBounds(step: int, m: nat)
    requires step > 0 && m < 8
    ensures 2 * (m * step) + step - 17 <= 8 * TrialDelta(step, m) <= 2 * (m * step) + step
    ensures TrialDelta(step, m) >= 0
    ensures TrialDelta(step, 8 + m) == -TrialDelta(step, m)
  {
  }

  // Before clipping, a sample in reach is met within an eighth of a step and rounding.
  lemma TrialHits(distance: nat, step: int)
    requires step > 0 && distance < 2 * step
    ensures 8 * Abs(TrialDelta(step, Magnitude(distance, step)) - distance) <= step + 17
  {
  }

  lemma GreedyDelta(p: Predictor, target: int)
    ensures TrialDelta(Step(p.index), Greedy(p, target))
         == Signed(target < p.pcm, TrialDelta(Step(p.index), Magnitude(Abs(target - p.pcm), Step(p.index))))
  {
    var d, s := target - p.pcm, Step(p.index);
    TrialBounds(s, Magnitude(Abs(d), s));
    hide TrialDelta, Step;
  }

  /** Quantization bound: a sample in reach is reproduced within an eighth of a step plus
      rounding, and clipping to 16 bits does not make it worse. */
  lemma QuantizationBound(p: Predictor, target: AdpcmPredictor.Sample)
    requires !Overloaded(p, target)
    ensures 8 * Abs(GreedyStep(p, target).pcm - target) <= Step(p.index) + 17
  {
    TrialHits(Abs(target - p.pcm), Step(p.index));
    GreedyDelta(p, target);
    hide TrialDelta, Step, Magnitude, Greedy;
  }

  lemma FullMagnitude(distance: nat, step: int)
    requires step > 0 && distance >= 2 * step
    ensures Magnitude(distance, step) == 7
  {
  }

  // Out of reach, the largest nibble is used in the right direction without overshoot.
  lemma OverloadStep(p: Predictor, target: int)
    requires Overloaded(p, target)
    ensures var p', s := GreedyStep(p, target), Step(p.index);
            && p'.index == (if p.index > 80 then 88 else p.index + 8)
            && 8 * TrialDelta(s, 7) >= 15 * s - 17 && 8 * TrialDelta(s, 7) <= 15 * s
            && p'.pcm == (if target > p.pcm then Clip(p.pcm + TrialDelta(s, 7), -32768, 32767)
                          else Clip(p.pcm - TrialDelta(s, 7), -32768, 32767))
  {
    var d, s := target - p.pcm, Step(p.index);
    FullMagnitude(Abs(d), s);
    TrialBounds(s, 7);
    GreedyDelta(p, target);
    hide TrialDelta, Step, Magnitude;
  }

  /** Slope overload: an overloaded sample moves towards the input, stays on its side of
      it, and takes the step eight places up the table. */
  lemma OverloadProgress(p: Predictor, target: AdpcmPredictor.Sample)
    requires Overloaded(p, target)
    ensures var p' := GreedyStep(p, target);
            && p'.index == (if p.index > 80 then 88 else p.index + 8)
            && (target > p.pcm ==> p.pcm < p'.pcm <= target)
            && (target < p.pcm ==> target <= p'.pcm < p.pcm)
            && Abs(target - p'.pcm) <= Abs(target - p.pcm) - 11
  {
    OverloadStep(p, target);
    hide TrialDelta, Step, Magnitude, Greedy;
  }

  // ----- a constant input -----

  /** The predictor after n samples of constant input x. */
  function Hold(p: Predictor, x: AdpcmPredictor.Sample, n: nat): Predictor
  {
    if n == 0 then p else GreedyStep(Hold(p, x, n - 1), x)
  }

  // Every one of the first n samples is overloaded.
  ghost predicate OverloadedFor(p: Predictor, x: AdpcmPredictor.Sample, n: nat)
  {
    forall k: nat :: k < n ==> Overloaded(Hold(p, x, k), x)
  }

  lemma {:induction false} OverloadRun(p: Predictor, x: AdpcmPredictor.Sample, n: nat)
    requires OverloadedFor(p, x, n)
    ensures Hold(p, x, n).index >= (if 8 * n > 88 then 88 else 8 * n)
    ensures n > 0 ==> Abs(x - Hold(p, x, n).pcm) <= 65535 - 11
  {
    hide GreedyStep, Step;
    if n > 0 {
      OverloadRun(p, x, n - 1);
      OverloadProgress(Hold(p, x, n - 1), x);
    }
  }

  lemma TopStepReaches(p: Predictor, x: AdpcmPredictor.Sample)
    requires p.index == 88 && Abs(x - p.pcm) <= 65535 - 11
    ensures !Overloaded(p, x)
  {
  }

  /** From any state, at most eleven samples of a constant input are overloaded in a row. */
  lemma OverloadIsShort(p: Predictor, x: AdpcmPredictor.Sample, n: nat)
    requires OverloadedFor(p, x, n)
    ensures n <= 11
  {
    if n > 11 {
      OverloadRun(p, x, 11);
      TopStepReaches(Hold(p, x, 11), x);
      assert false;
    }
  }

  // The input is less than one step away: only small magnitudes are needed.
  predicate Locked(p: Predictor, x: int)
  {
    Abs(x - p.pcm) < Step(p.index)
  }

  // A locked sample lowers the index by one.
  lemma LockedIndex(p: Predictor, x: AdpcmPredictor.Sample)
    requires Locked(p, x)
    ensures GreedyStep(p, x).index == if p.index == 0 then 0 else p.index - 1
  {
    var d, s := Abs(x - p.pcm), Step(p.index);
    assert Magnitude(d, s) <= 3 by {
      if Magnitude(d, s) > 3 {
        MulMonotone(4, Magnitude(d, s), s);
      }
    }
    hide Step, Magnitude;
  }

  /** Once a sample is in reach, so is every later one: the lock is never lost. */
  lemma ReachLocks(p: Predictor, x: AdpcmPredictor.Sample)
    requires !Overloaded(p, x)
    ensures Locked(GreedyStep(p, x), x)
  {
    var p' := GreedyStep(p, x);
    QuantizationBound(p, x);
    IndexFalls(p, x);
    if p.index > 0 {
      StepGrowth(p.index - 1);
      StepMonotone(p.index - 1, p'.index);
    }
    hide GreedyStep;
    assert Step(0) == 7;
  }

  // No sample lowers the index by more than one.
  lemma IndexFalls(p: Predictor, x: int)
    ensures GreedyStep(p, x).index >= p.index - 1
  {
  }

  lemma InReach(p: Predictor, x: int)
    requires Locked(p, x)
    ensures !Overloaded(p, x)
  {
  }

  lemma {:induction false} StaysLocked(p: Predictor, x: AdpcmPredictor.Sample, n: nat)
    requires Locked(p, x)
    ensures Locked(Hold(p, x, n), x)
    ensures Hold(p, x, n).index == if p.index <= n then 0 else p.index - n
  {
    hide GreedyStep, Step;
    if n > 0 {
      StaysLocked(p, x, n - 1);
      InReach(Hold(p, x, n - 1), x);
      ReachLocks(Hold(p, x, n - 1), x);
      LockedIndex(Hold(p, x, n - 1), x);
    }
  }

  lemma {:induction false} HoldAgain(p: Predictor, x: AdpcmPredictor.Sample, m: nat, n: nat)
    ensures Hold(Hold(p, x, m), x, n) == Hold(p, x, m + n)
  {
    hide GreedyStep;
    if n > 0 {
      HoldAgain(p, x, m, n - 1);
    }
  }

  // At the smallest step an error of three shrinks to one, and one is kept.
  lemma SmallestStep(p: Predictor, x: AdpcmPredictor.Sample)
    requires p.index == 0 && Abs(x - p.pcm) <= 3
    ensures var q := GreedyStep(p, x);
            q.index == 0 && Abs(x - q.pcm) <= (if Abs(x - p.pcm) <= 1 then 1 else Abs(x - p.pcm) - 1)
  {
  }

  lemma {:induction false} Rests(p: Predictor, x: AdpcmPredictor.Sample, n: nat)
    requires p.index == 0 && Abs(x - p.pcm) <= 3
    ensures var q := Hold(p, x, n);
            q.index == 0 && Abs(x - q.pcm) <= (if n == 0 then 3 else if n == 1 then 2 else 1)
  {
    hide GreedyStep;
    if n > 0 {
      Rests(p, x, n - 1);
      SmallestStep(Hold(p, x, n - 1), x);
    }
  }

  /** Convergence: whatever state the predictor is in, a constant input brings it to within
      one of the input after at most 103 samples, and it stays there at the smallest step. */
  lemma ConstantInputConverges(p: Predictor, x: AdpcmPredictor.Sample, n: nat)
    requires n >= 103
    ensures Hold(p, x, n).index == 0 && Abs(x - Hold(p, x, n).pcm) <= 1
  {
    hide GreedyStep, Step, Overloaded, Locked;
    if OverloadedFor(p, x, 12) {
      OverloadIsShort(p, x, 12);
      assert false;
    }
    var k: nat :| k < 12 && !Overloaded(Hold(p, x, k), x);
    ReachLocks(Hold(p, x, k), x);
    StaysLocked(Hold(p, x, k + 1), x, 88);
    HoldAgain(p, x, k + 1, 88);
    var low := Hold(p, x, k + 89);
    SmallError(low, x);
    HoldAgain(p, x, k + 90, n - (k + 90));
    Rests(Hold(p, x, k + 90), x, n - (k + 90));
  }

  lemma SmallError(p: Predictor, x: AdpcmPredictor.Sample)
    requires Locked(p, x) && p.index == 0
    ensures GreedyStep(p, x).index == 0 && Abs(x - GreedyStep(p, x).pcm) <= 3
  {
    assert Step(0) == 7;
    QuantizationBound(p, x);
    LockedIndex(p, x);
  }

  lemma TooSmallToMove()
    ensures GreedyStep(Predictor(0, 0), 1) == Predictor(0, 0)
  {
  }

  /** The bound is met: an error of one at the smallest step is never corrected. */
  lemma {:induction false} ErrorOfOneStays(n: nat)
    ensures Hold(Predictor(0, 0), 1, n) == Predictor(0, 0)
  {
    hide GreedyStep;
    if n > 0 {
      ErrorOfOneStays(n - 1);
      TooSmallToMove();
    }
  }

  /** The encoder without lookahead and shaping runs the predictor this way. */
  lemma {:induction false} PlainEncoderHolds(c: Channel, samples: seq<AdpcmPredictor.Sample>, x: AdpcmPredictor.Sample, n: nat)
    requires n <= |samples| && forall i :: 0 <= i < |samples| ==> samples[i] == x
    ensures StateAt(Config(Ima(), Off, 0), c, samples, n).pred == Hold(c.pred, x, n)
  {
    hide GreedyStep, EncodeStep;
    if n > 0 {
      PlainEncoderHolds(c, samples, x, n - 1);
      PlainEncodeStep(StateAt(Config(Ima(), Off, 0), c, samples, n - 1), samples[n - 1..]);
    }
  }

  // ----- the initial step -----

  lemma {:induction false} InitialIndexBounds(delta: int, from: StepIndex)
    ensures var i := InitialIndex(delta, from);
            && from <= i
            && (i < 88 ==> delta < (Step(i) + Step(i + 1)) / 2)
            && (i > from ==> (Step(i - 1) + Step(i)) / 2 <= delta)
    decreases 88 - from
  {
    hide Step;
    if !(from == 88 || delta < (Step(from) + Step(from + 1)) / 2) {
      InitialIndexBounds(delta, from + 1);
    }
  }

  // No step of the table is closer to the delta than this one.
  ghost predicate Nearest(i: StepIndex, delta: int)
  {
    forall j: StepIndex :: Abs(Step(i) - delta) <= Abs(Step(j) - delta)
  }

  // The delta lies just under the midpoint of two neighbouring steps.
  ghost predicate BelowMidpoint(delta: int)
  {
    exists k: StepIndex :: k < 88 && Step(k) + Step(k + 1) == 2 * delta + 1
  }

  lemma WithinOne(delta: int, j: StepIndex)
    ensures var i := InitialIndex(delta, 0);
            && Abs(Step(i) - delta) <= Abs(Step(j) - delta) + 1
            && (j > i ==> Abs(Step(i) - delta) <= Abs(Step(j) - delta))
            && (j < i && Step(i - 1) + Step(i) != 2 * delta + 1 ==> Abs(Step(i) - delta) <= Abs(Step(j) - delta))
  {
    var i := InitialIndex(delta, 0);
    InitialIndexBounds(delta, 0);
    if j < i {
      StepMonotone(j, i - 1);
      StepGrowth(i - 1);
    } else if j > i {
      StepMonotone(i + 1, j);
      StepGrowth(i);
    }
    hide Step, InitialIndex;
  }

  /** The initial index is never off by more than one from the nearest step, and it is the
      nearest one exactly when the delta is not just under a midpoint. */
  lemma InitialIndexNearest(delta: int)
    ensures forall j: StepIndex :: Abs(Step(InitialIndex(delta, 0)) - delta) <= Abs(Step(j) - delta) + 1
    ensures Nearest(InitialIndex(delta, 0), delta) <==> !BelowMidpoint(delta)
  {
    hide Step, InitialIndex;
    var i := InitialIndex(delta, 0);
    forall j: StepIndex
      ensures Abs(Step(i) - delta) <= Abs(Step(j) - delta) + 1
      ensures !BelowMidpoint(delta) ==> Abs(Step(i) - delta) <= Abs(Step(j) - delta)
    {
      WithinOne(delta, j);
    }
    if BelowMidpoint(delta) {
      var k: StepIndex :| k < 88 && Step(k) + Step(k + 1) == 2 * delta + 1;
      InitialIndexBounds(delta, 0);
      StepGrowth(k);
      if i <= k {
        StepMonotone(i, k);
        StepMonotone(i + 1, k + 1);
      } else if i > k + 1 {
        StepMonotone(k, i - 1);
        StepMonotone(k + 1, i);
      }
      assert Abs(Step(k) - delta) < Abs(Step(i) - delta);
    }
  }

  /** The smallest such delta. */
  lemma SevenIsNotNearest()
    ensures InitialIndex(7, 0) == 1 && !Nearest(1, 7)
  {
  }
}
