/**
 What the encoder's choice of a nibble and its dynamic noise shaping come to: the least squared
 error over the samples looked ahead at, the order of ties, and where the shaping moves a target.
 */
module AdpcmChoice {
  import opened AdpcmPredictor
  import opened AdpcmSearch
  import opened AdpcmTrace

  // ----- the lookahead -----

  // The squared error of reproducing some targets with some nibbles.
  ghost function SquaredError(p: Predictor, targets: seq<int>, nibbles: seq<Nibble>): int
    requires |targets| == |nibbles|
    decreases |nibbles|
  {
    if nibbles == [] then 0
    else
      var q := Advance(p, nibbles[0]);
      (q.pcm - targets[0]) * (q.pcm - targets[0]) + SquaredError(q, targets[1..], nibbles[1..])
  }

  // The last nibble is the greedy one, as at the end of every search.
  ghost predicate GreedyAtLast(p: Predictor, targets: seq<int>, nibbles: seq<Nibble>)
    requires |targets| == |nibbles|
    decreases |nibbles|
  {
    nibbles != [] &&
    if |nibbles| == 1 then nibbles[0] == Greedy(p, targets[0])
    else GreedyAtLast(Advance(p, nibbles[0]), targets[1..], nibbles[1..])
  }

  lemma {:induction false} CostIsError(p: Predictor, targets: seq<int>, nibbles: seq<Nibble>)
    requires |targets| == |nibbles| && GreedyAtLast(p, targets, nibbles)
    ensures PathCost(Ima(), p, targets, nibbles[..|nibbles| - 1]) == SquaredError(p, targets, nibbles)
    decreases |nibbles|
  {
    hide Advance, Greedy;
    var path := nibbles[..|nibbles| - 1];
    if |nibbles| == 1 {
      assert path == [];
    } else {
      assert path[1..] == nibbles[1..][..|nibbles| - 2] && path[0] == nibbles[0];
      CostIsError(Advance(p, nibbles[0]), targets[1..], nibbles[1..]);
    }
  }

  // Any path, with the greedy nibble at its end.
  lemma {:induction false} WithGreedy(p: Predictor, targets: seq<int>, path: seq<Nibble>) returns (nibbles: seq<Nibble>)
    requires |targets| == |path| + 1
    ensures |nibbles| == |targets| && nibbles[..|path|] == path && GreedyAtLast(p, targets, nibbles)
    decreases |path|
  {
    hide Advance, Greedy;
    if path == [] {
      nibbles := [Greedy(p, targets[0])];
    } else {
      var rest := WithGreedy(Advance(p, path[0]), targets[1..], path[1..]);
      nibbles := [path[0]] + rest;
      assert nibbles[1..] == rest;
    }
  }

  /** With a lookahead of L the encoder's nibble begins a choice of nibbles for the sample (as
      shaped) and the next min(L, remaining - 1) samples of the channel whose squared error is the
      least of all choices, the last nibble being greedy in each. */
  lemma LookaheadMinimises(lookahead: nat, shaping: NoiseShaping, c: Channel, samples: seq<AdpcmPredictor.Sample>,
                           nibbles: seq<Nibble>)
    returns (best: seq<Nibble>)
    requires samples != []
    requires |nibbles| == 1 + if |samples| - 1 < lookahead then |samples| - 1 else lookahead
    requires var targets := [Shape(shaping, c, samples[0]).0] + samples[1..|nibbles|];
             GreedyAtLast(c.pred, targets, nibbles)
    ensures var targets := [Shape(shaping, c, samples[0]).0] + samples[1..|nibbles|];
            && |best| == |nibbles| && GreedyAtLast(c.pred, targets, best)
            && best[0] == EncodeStep(Config(Ima(), shaping, lookahead), c, samples).0
            && SquaredError(c.pred, targets, best) <= SquaredError(c.pred, targets, nibbles)
  {
    hide Advance, Greedy, Miss, Best, Shape, GreedyAtLast, SquaredError, PathCost, Choice;
    var cfg := Config(Ima(), shaping, lookahead);
    var target := Shape(shaping, c, samples[0]).0;
    var targets := [target] + samples[1..|nibbles|];
    assert SearchWindow(cfg, target, samples) == targets;
    var path := BestIsAttained(Ima(), c.pred, targets);
    best := WithGreedy(c.pred, targets, path);
    CostIsError(c.pred, targets, best);
    CostIsError(c.pred, targets, nibbles);
    BestIsLowerBound(Ima(), c.pred, targets, nibbles[..|nibbles| - 1]);
    if path == [] {
      OnlyGreedy(c.pred, targets, best);
    } else {
      assert best[0] == best[..|path|][0];
    }
  }

  lemma OnlyGreedy(p: Predictor, targets: seq<int>, nibbles: seq<Nibble>)
    requires |targets| == |nibbles| == 1 && GreedyAtLast(p, targets, nibbles)
    ensures nibbles[0] == Greedy(p, targets[0])
  {
  }

  /** Ties: another nibble than the greedy one is chosen only when it is strictly better, and then
      it is the smallest of the best. */
  lemma TiesGoToGreedy(q: Quantizer, p: Predictor, window: seq<int>, path: seq<Nibble>)
    requires |window| == |path| + 1 > 1 && Choice(q, p, window) != q.greedy(p, window[0])
    requires path[0] == q.greedy(p, window[0]) || path[0] < Choice(q, p, window)
    ensures PathCost(q, p, window, path) > Best(q, p, window)
  {
    hide Costs;
    BestIsLowerBound(q, q.advance(p, path[0]), window[1..], path[1..]);
    assert Costs(q, p, window)[path[0]] == CostOf(q, p, window, path[0]);
  }

  // ----- dynamic noise shaping -----

  // Division by 1024 to the nearest integer, half way up.
  lemma ScaledRounds(x: int)
    ensures -512 < 1024 * Scaled(x) - x <= 512
  {
  }

  function Sign(x: int): int
  {
    if x > 0 then 1 else if x < 0 then -1 else 0
  }

  /** Dynamic shaping: the weight moves by two, up if the sample lies on the side of its prediction
      that the signal leans to and down if on the other. The share of the error taken off the
      target is all of it up to weight 256 and falls by two for every step of the weight above,
      even below zero; a negative share is never the whole error, and leaves no error but the
      sample's own. */
  lemma DynamicRule(c: Channel, sample: int)
    ensures var (target, d) := Shape(Dynamic, c, sample);
            var slope := (3 * c.recent - c.older) / 2;
            var share := if d.weight < 256 then 1024 else 1024 - 2 * (d.weight - 256);
            && d.pred == c.pred && d.recent == sample && d.older == c.recent
            && d.weight == c.weight + 2 * Sign(slope) * Sign(sample - Scaled(c.weight * slope))
            && (share >= 0 ==> target == sample - Scaled(share * c.error) && d.error == -target)
            && (share < 0 ==>
                  && d.error == -sample && (target - sample == c.error ==> c.error == 0)
                  && (-Scaled(share * c.error) != c.error ==> target == sample - Scaled(share * c.error))
                  && (-Scaled(share * c.error) == c.error ==> target == sample + c.error - Sign(c.error)))
  {
    hide Scaled;
  }

  /** What one sample does to a channel besides moving its predictor: without shaping nothing, with
      static shaping the error becomes the output minus the target, and with dynamic shaping the
      output is added to what the shaping left of it. */
  lemma ErrorAfterSample(cfg: Config, c: Channel, samples: seq<AdpcmPredictor.Sample>)
    requires samples != []
    ensures var (nibble, d) := EncodeStep(cfg, c, samples);
            && d.pred == cfg.q.advance(c.pred, nibble)
            && (cfg.shaping.Off? ==> d == c.(pred := d.pred))
            && (cfg.shaping.Static? ==> d == c.(pred := d.pred, error := d.pred.pcm - (samples[0] - c.error)))
            && (cfg.shaping.Dynamic? ==>
                  var shaped := Shape(Dynamic, c, samples[0]).1;
                  d == shaped.(pred := d.pred, error := shaped.error + d.pred.pcm))
  {
    ShapeKeepsPredictor(cfg.shaping, c, samples[0]);
    hide Scaled, Feedback, Adapted, ShapingWeight;
  }
}
