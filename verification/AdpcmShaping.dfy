/**
 How large the error fed back by static noise shaping can grow when there is no lookahead: by a
 constant and one slip a block, whatever the input; and some input does make it grow at that rate.
 */
module AdpcmShaping {
  import opened AdpcmPredictor
  import opened AdpcmSearch
  import opened AdpcmTrace
  import opened AdpcmBounds

  const MAX_GAP := 65535     // largest difference of two 16-bit samples
  const FAR := 131072        // an error of this size overloads every sample
  const SLIP := 4099         // what the largest step leaves of the whole range

  datatype Shaped = Shaped(pred: Predictor, error: int)

  // One sample under static shaping: the error is taken off the target and renewed.
  function ShapedStep(s: Shaped, sample: AdpcmPredictor.Sample): Shaped
  {
    var pred := GreedyStep(s.pred, sample - s.error);
    Shaped(pred, pred.pcm - sample + s.error)
  }

  function ShapedRun(s: Shaped, samples: seq<AdpcmPredictor.Sample>): Shaped
  {
    if samples == [] then s
    else ShapedStep(ShapedRun(s, samples[..|samples| - 1]), samples[|samples| - 1])
  }

  ghost function StaticConfig(): Config
  {
    Config(Ima(), Static, 0)
  }

  lemma ShapedEncodeStep(c: Channel, samples: seq<AdpcmPredictor.Sample>)
    requires samples != []
    ensures var c' := EncodeStep(StaticConfig(), c, samples).1;
            Shaped(c'.pred, c'.error) == ShapedStep(Shaped(c.pred, c.error), samples[0])
  {
  }

  /** The encoder with static shaping and no lookahead is this run. */
  lemma {:induction false} EncoderIsShapedRun(c: Channel, samples: seq<AdpcmPredictor.Sample>, n: nat)
    requires n <= |samples|
    ensures var c' := StateAt(StaticConfig(), c, samples, n);
            Shaped(c'.pred, c'.error) == ShapedRun(Shaped(c.pred, c.error), samples[..n])
  {
    hide EncodeStep, ShapedStep, StaticConfig;
    if n > 0 {
      EncoderIsShapedRun(c, samples, n - 1);
      ShapedEncodeStep(StateAt(StaticConfig(), c, samples, n - 1), samples[n - 1..]);
      assert samples[..n][..n - 1] == samples[..n - 1];
    }
  }

  // ----- how far the error can grow -----

  // How many overloaded samples take the index to the top of the table.
  function Rising(p: Predictor): nat
    ensures Rising(p) <= 11
  {
    (95 - p.index) / 8
  }

  // 1 if the largest step up (or down) does not reach the end of the range.
  function Below(p: Predictor): nat
  {
    if p.pcm < 32767 - 61436 then 1 else 0
  }

  function Above(p: Predictor): nat
  {
    if p.pcm > -32768 + 61436 then 1 else 0
  }

  /** The error is at most `far`, give or take what the samples on the way to the largest step
      have added, and one slip for each block whose first overloaded sample at that step falls
      short of the end of the range. */
  ghost predicate Within(s: Shaped, far: int, blocks: nat)
  {
    && s.error >= -far - MAX_GAP * (12 - Rising(s.pred)) - SLIP * (blocks - Below(s.pred))
    && s.error <= far + MAX_GAP * (12 - Rising(s.pred)) + SLIP * (blocks - Above(s.pred))
  }

  lemma TopStep()
    ensures Step(88) == 32767 && TrialDelta(Step(88), 7) == 61436
  {
  }

  lemma Climbs(p: Predictor, target: int)
    requires target >= 98303
    ensures var p' := GreedyStep(p, target);
            && Below(p') <= Below(p)
            && (p.index < 88 ==> Rising(p') + 1 <= Rising(p))
            && (p.index == 88 ==> p'.index == 88 && Below(p') == 0 && 32767 - p'.pcm <= SLIP * Below(p))
  {
    OverloadStep(p, target);
    TopStep();
    hide Step, TrialDelta, GreedyStep;
  }

  lemma Falls(p: Predictor, target: int)
    requires target <= -98303
    ensures var p' := GreedyStep(p, target);
            && Above(p') <= Above(p)
            && (p.index < 88 ==> Rising(p') + 1 <= Rising(p))
            && (p.index == 88 ==> p'.index == 88 && Above(p') == 0 && p'.pcm + 32768 <= SLIP * Above(p))
  {
    OverloadStep(p, target);
    TopStep();
    hide Step, TrialDelta, GreedyStep;
  }

  lemma WithinStep(s: Shaped, far: int, blocks: nat, sample: AdpcmPredictor.Sample)
    requires far >= FAR && blocks > 0 && Within(s, far, blocks)
    ensures Within(ShapedStep(s, sample), far, blocks)
  {
    hide GreedyStep;
    if s.error < -far {
      Climbs(s.pred, sample - s.error);
    }
    if s.error > far {
      Falls(s.pred, sample - s.error);
    }
  }

  lemma {:induction false} WithinRun(s: Shaped, far: int, blocks: nat, samples: seq<AdpcmPredictor.Sample>)
    requires far >= FAR && blocks > 0 && Within(s, far, blocks)
    ensures Within(ShapedRun(s, samples), far, blocks)
  {
    hide ShapedStep, Within;
    if samples != [] {
      WithinRun(s, far, blocks, samples[..|samples| - 1]);
      WithinStep(ShapedRun(s, samples[..|samples| - 1]), far, blocks, samples[|samples| - 1]);
    }
  }

  function Observed(c: Channel): Shaped
  {
    Shaped(c.pred, c.error)
  }

  /** Over any input and any block length, static shaping without lookahead lets the error grow
      by no more than twelve full-scale samples and one slip over where it was (or over the error
      that overloads every sample). Starting from a fresh context it stays below 2^20, so the
      32-bit arithmetic of the quantizer does not overflow. */
  lemma ErrorIsBoundedInBlock(c: Channel, samples: seq<AdpcmPredictor.Sample>, n: nat, far: int)
    requires n <= |samples| && far >= FAR && Abs(c.error) <= far
    ensures Abs(StateAt(StaticConfig(), c, samples, n).error) <= far + 12 * MAX_GAP + SLIP
    ensures far == FAR ==> 4 * Abs(StateAt(StaticConfig(), c, samples, n).error) < 0x40_0000
  {
    EncoderIsShapedRun(c, samples, n);
    WithinRun(Observed(c), far, 1, samples[..n]);
  }

  // The same between blocks, where the predictor is about to be set anew.
  ghost predicate Carried(c: Channel, far: int, blocks: nat)
  {
    Abs(c.error) <= far + MAX_GAP * (12 - Rising(c.pred)) + SLIP * blocks
  }

  // Every block adds at most one slip.
  lemma WithinBlock(c: Channel, far: int, blocks: nat, b: seq<AdpcmPredictor.Sample>, n: nat)
    requires far >= FAR && Carried(c, far, blocks) && n < |b|
    ensures Within(Observed(StateAt(StaticConfig(), BlockStart(c, b[0]), b[1..], n)), far, blocks + 1)
  {
    hide ShapedRun, StaticConfig;
    EncoderIsShapedRun(BlockStart(c, b[0]), b[1..], n);
    assert Within(Observed(BlockStart(c, b[0])), far, blocks + 1);
    WithinRun(Observed(BlockStart(c, b[0])), far, blocks + 1, b[1..][..n]);
  }

  lemma {:induction false} CarriedOver(c: Channel, far: int, blocks: seq<seq<AdpcmPredictor.Sample>>)
    requires far >= FAR && Abs(c.error) <= far
    ensures Carried(AfterBlocks(StaticConfig(), c, blocks), far, |blocks|)
    decreases |blocks|
  {
    hide StateAt, StaticConfig, Rising;
    if blocks != [] {
      var earlier, b := blocks[..|blocks| - 1], blocks[|blocks| - 1];
      CarriedOver(c, far, earlier);
      if b != [] {
        WithinBlock(AfterBlocks(StaticConfig(), c, earlier), far, |earlier|, b, |b| - 1);
      }
    }
  }

  /** Over any blocks of any lengths the error grows by at most one slip a block, and a constant. */
  lemma ErrorGrowth(c: Channel, blocks: seq<seq<AdpcmPredictor.Sample>>, far: int)
    requires far >= FAR && Abs(c.error) <= far
    ensures Abs(AfterBlocks(StaticConfig(), c, blocks).error) <= far + 12 * MAX_GAP + SLIP * |blocks|
  {
    CarriedOver(c, far, blocks);
  }

  const SAFE_BLOCKS: nat := 130736

  // Four times the distance to the target, as the quantizer computes it before dividing by the step.
  function Quadrupled(c: Channel, sample: AdpcmPredictor.Sample): nat
  {
    4 * Abs(sample - c.error - c.pred.pcm)
  }

  /** From a fresh context this many blocks, whatever they hold, keep the quantizer's arithmetic
      inside 32 bits. */
  lemma NoOverflow(c: Channel, earlier: seq<seq<AdpcmPredictor.Sample>>, b: seq<AdpcmPredictor.Sample>, n: nat)
    requires c.error == 0 && |earlier| < SAFE_BLOCKS && n + 1 < |b|
    ensures Quadrupled(StateAt(StaticConfig(), BlockStart(AfterBlocks(StaticConfig(), c, earlier), b[0]), b[1..], n), b[n + 1])
         < 0x8000_0000
  {
    hide StateAt, StaticConfig, Rising;
    CarriedOver(c, FAR, earlier);
    WithinBlock(AfterBlocks(StaticConfig(), c, earlier), FAR, |earlier|, b, n);
  }

  // ----- not bounded over blocks -----

  // Every block starts by setting the predictor to its first sample; the error is kept.
  function NewBlock(s: Shaped, first: AdpcmPredictor.Sample): Shaped
  {
    Shaped(Predictor(first, s.pred.index), s.error)
  }

  // n samples at the top of the range.
  function Top(s: Shaped, n: nat): Shaped
  {
    if n == 0 then s else ShapedStep(Top(s, n - 1), 32767)
  }

  // n blocks of nine samples: one at the bottom of the range, eight at the top.
  function Blocks(s: Shaped, n: nat): Shaped
  {
    if n == 0 then s else Top(NewBlock(Blocks(s, n - 1), -32768), 8)
  }

  // From a fresh predictor every sample of the first block is overloaded.
  lemma {:induction false} FirstBlock(n: nat)
    requires n <= 8
    ensures var s := Top(Shaped(Predictor(-32768, 0), 0), n);
            && s.pred.index == 8 * n && s.pred.pcm <= -32768 + 2910 * n
            && s.error <= -42255 * n
  {
    hide ShapedStep;
    if n > 0 {
      FirstBlock(n - 1);
      FirstBlockSample(Top(Shaped(Predictor(-32768, 0), 0), n - 1));
    }
  }

  lemma LowStep(i: StepIndex)
    requires i <= 56
    ensures Step(i) <= 1552
  {
    StepMonotone(i, 56);
    assert Step(56) == 1552;
  }

  lemma FirstBlockSample(s: Shaped)
    requires s.pred.index <= 56 && s.pred.pcm <= -32768 + 2910 * 7 && s.error <= 0
    ensures var s' := ShapedStep(s, 32767);
            && s'.pred.index == s.pred.index + 8 && s'.pred.pcm <= s.pred.pcm + 2910
            && s'.error <= s.error - 42255
  {
    var target := 32767 - s.error;
    LowStep(s.pred.index);
    assert Overloaded(s.pred, target);
    OverloadStep(s.pred, target);
    hide Step, TrialDelta, GreedyStep, Overloaded;
    assert TrialDelta(Step(s.pred.index), 7) <= 2910;
  }

  // With a far negative error every further sample at the top is overloaded too.
  lemma FarSample(s: Shaped)
    requires s.error <= -FAR
    ensures var s' := ShapedStep(s, 32767);
            && s'.pred.index == (if s.pred.index > 80 then 88 else s.pred.index + 8)
            && s'.error == s.error + s'.pred.pcm - 32767 <= s.error
            && (s.pred == Predictor(-32768, 88) ==> s'.pred.pcm == 28668)
  {
    OverloadStep(s.pred, 32767 - s.error);
    TopStep();
    hide Step, TrialDelta, GreedyStep;
  }

  lemma {:induction false} FarBlock(s: Shaped, n: nat)
    requires s.error <= -FAR
    ensures var s' := Top(s, n);
            && s'.pred.index >= (if s.pred.index + 8 * n > 88 then 88 else s.pred.index + 8 * n)
            && s'.error <= s.error
            && (s.pred == Predictor(-32768, 88) && n > 0 ==> s'.error <= s.error - 4099)
  {
    hide ShapedStep;
    if n > 0 {
      FarBlock(s, n - 1);
      FarSample(Top(s, n - 1));
    }
  }

  /** Over blocks the error is not bounded: this input takes it below any limit, 32-bit
      arithmetic included, because every block restarts the predictor but not the error. */
  lemma {:induction false} ErrorDriftsOverBlocks(n: nat)
    ensures var s := Blocks(Shaped(Predictor(0, 0), 0), n);
            && (n >= 1 ==> s.pred.index >= 64 && s.error <= -FAR)
            && (n >= 2 ==> s.pred.index == 88 && s.error <= -FAR - 4099 * (n - 2))
  {
    hide Top;
    var before := Blocks(Shaped(Predictor(0, 0), 0), n - if n > 0 then 1 else 0);
    if n == 1 {
      assert before == Shaped(Predictor(0, 0), 0);
      FirstBlock(8);
    } else if n > 1 {
      ErrorDriftsOverBlocks(n - 1);
      FarBlock(NewBlock(before, -32768), 8);
    }
  }

  // The input of those blocks.
  function Rail(n: nat): (samples: seq<AdpcmPredictor.Sample>)
    ensures |samples| == n && forall i :: 0 <= i < n ==> samples[i] == 32767
  {
    seq(n, _ => 32767)
  }

  function RailBlocks(n: nat): seq<seq<AdpcmPredictor.Sample>>
  {
    seq(n, _ => [-32768] + Rail(8))
  }

  lemma {:induction false} TopIsRun(s: Shaped, n: nat)
    ensures Top(s, n) == ShapedRun(s, Rail(n))
  {
    hide ShapedStep;
    if n > 0 {
      TopIsRun(s, n - 1);
      assert Rail(n)[..n - 1] == Rail(n - 1);
    }
  }

  /** Those blocks are what the encoder makes of that input. */
  lemma {:induction false} EncoderDrifts(c: Channel, n: nat)
    ensures var c' := AfterBlocks(StaticConfig(), c, RailBlocks(n));
            Shaped(c'.pred, c'.error) == Blocks(Shaped(c.pred, c.error), n)
  {
    hide StateAt, ShapedRun, Top, StaticConfig;
    if n > 0 {
      EncoderDrifts(c, n - 1);
      var before, b := AfterBlocks(StaticConfig(), c, RailBlocks(n - 1)), [-32768] + Rail(8);
      assert RailBlocks(n)[..n - 1] == RailBlocks(n - 1) && RailBlocks(n)[n - 1] == b;
      assert b[1..] == Rail(8) && Rail(8)[..8] == Rail(8);
      EncoderIsShapedRun(BlockStart(before, -32768), Rail(8), 8);
      TopIsRun(NewBlock(Shaped(before.pred, before.error), -32768), 8);
    }
  }

  /** And about two hundred blocks more are too many: after them, the first sample of the next
      such block overflows. */
  lemma Overflows(c: Channel, n: nat)
    requires n >= SAFE_BLOCKS + 195 && Observed(c) == Shaped(Predictor(0, 0), 0)
    ensures var b := [-32768] + Rail(8);
            Quadrupled(BlockStart(AfterBlocks(StaticConfig(), c, RailBlocks(n)), b[0]), b[1]) >= 0x8000_0000
  {
    hide Blocks, StaticConfig, AfterBlocks;
    EncoderDrifts(c, n);
    ErrorDriftsOverBlocks(n);
  }
}
