/**
 The encoder's nibble search: a recursive branch-and-bound with a greedy leaf, proved
 equal to exhaustive search and to the minimum over all nibble paths.
 */
module AdpcmSearch {
  import opened AdpcmPredictor

  /** What the search asks of a quantizer. Nothing below depends on the IMA tables, so the
      search is proved for every quantizer; `Ima` is the one the codec uses. */
  datatype Quantizer = Quantizer(
    advance: (Predictor, Nibble) -> Predictor,
    greedy: (Predictor, int) -> Nibble,
    miss: (Predictor, int) -> nat)

  function Ima(): Quantizer
  {
    Quantizer(Advance, Greedy, Miss)
  }

  // Squared error of one reconstructed sample.
  function Miss(p: Predictor, target: int): nat
  {
    Square(p.pcm - target)
  }

  function Square(x: int): nat
  {
    Product(x, x)
  }

  function Product(x: int, y: int): (r: int)
    ensures x == y ==> r >= 0
  {
    x * y
  }

  // ----- the least of a list of costs -----

  function Least(costs: seq<nat>): (least: nat)
    requires costs != []
    ensures least in costs
    ensures forall n :: 0 <= n < |costs| ==> least <= costs[n]
  {
    if |costs| == 1 then costs[0]
    else
      var rest := Least(costs[1..]);
      if costs[0] <= rest then costs[0] else rest
  }

  function FirstAt(costs: seq<nat>, cost: nat): (n: nat)
    requires cost in costs
    ensures n < |costs| && costs[n] == cost
    ensures forall k :: 0 <= k < n ==> costs[k] != cost
  {
    if costs[0] == cost then 0 else 1 + FirstAt(costs[1..], cost)
  }

  // The favourite when it is one of the cheapest, else the first of the cheapest.
  function Pick(costs: seq<nat>, favourite: nat): (n: nat)
    requires favourite < |costs|
    ensures n < |costs| && costs[n] == Least(costs)
  {
    if costs[favourite] == Least(costs) then favourite else FirstAt(costs, Least(costs))
  }

  // ----- exhaustive search -----

  /** Least cost over the window: at every level but the last all sixteen nibbles are
      tried, the last level takes the greedy one. */
  function Best(q: Quantizer, p: Predictor, window: seq<int>): nat
    requires |window| > 0
    decreases |window|, 2
  {
    if |window| == 1 then q.miss(q.advance(p, q.greedy(p, window[0])), window[0])
    else Least(Costs(q, p, window))
  }

  function Costs(q: Quantizer, p: Predictor, window: seq<int>): (costs: seq<nat>)
    requires |window| > 1
    ensures |costs| == 16
    ensures forall n: Nibble :: costs[n] == CostOf(q, p, window, n)
    decreases |window|, 1
  {
    seq(16, n requires 0 <= n < 16 => CostOf(q, p, window, n))
  }

  // Cost of starting with the given nibble and continuing at best.
  function CostOf(q: Quantizer, p: Predictor, window: seq<int>, nibble: Nibble): nat
    requires |window| > 1
    decreases |window|, 0
  {
    q.miss(q.advance(p, nibble), window[0]) + Best(q, q.advance(p, nibble), window[1..])
  }

  // The nibble reported with that cost: the greedy one unless another is strictly better.
  function Choice(q: Quantizer, p: Predictor, window: seq<int>): Nibble
    requires |window| > 0
  {
    if |window| == 1 then q.greedy(p, window[0])
    else Pick(Costs(q, p, window), q.greedy(p, window[0]))
  }

  // ----- the minimum over all nibble paths, with no search in its definition -----

  ghost function PathCost(q: Quantizer, p: Predictor, window: seq<int>, path: seq<Nibble>): nat
    requires |window| == |path| + 1
    decreases |path|
  {
    if path == [] then q.miss(q.advance(p, q.greedy(p, window[0])), window[0])
    else q.miss(q.advance(p, path[0]), window[0]) + PathCost(q, q.advance(p, path[0]), window[1..], path[1..])
  }

  // No nibble path is cheaper than the search's result.
  lemma {:induction false} BestIsLowerBound(q: Quantizer, p: Predictor, window: seq<int>, path: seq<Nibble>)
    requires |window| == |path| + 1
    ensures Best(q, p, window) <= PathCost(q, p, window, path)
    decreases |path|
  {
    if path != [] {
      BestIsLowerBound(q, q.advance(p, path[0]), window[1..], path[1..]);
      assert Best(q, p, window) <= Costs(q, p, window)[path[0]];
    }
  }

  // The search's result is the cost of a path that starts with the reported nibble.
  lemma {:induction false} BestIsAttained(q: Quantizer, p: Predictor, window: seq<int>) returns (path: seq<Nibble>)
    requires |window| > 0
    ensures |window| == |path| + 1 && PathCost(q, p, window, path) == Best(q, p, window)
    ensures Choice(q, p, window) == if path == [] then q.greedy(p, window[0]) else path[0]
    decreases |window|
  {
    if |window| == 1 {
      path := [];
    } else {
      var first := Choice(q, p, window);
      assert Costs(q, p, window)[first] == Best(q, p, window);
      var rest := BestIsAttained(q, q.advance(p, first), window[1..]);
      path := [first] + rest;
      assert path[1..] == rest;
    }
  }

  ghost function GreedyPath(q: Quantizer, p: Predictor, window: seq<int>): (path: seq<Nibble>)
    requires |window| > 0
    ensures |window| == |path| + 1
    decreases |window|
  {
    if |window| == 1 then []
    else
      var g := q.greedy(p, window[0]);
      [g] + GreedyPath(q, q.advance(p, g), window[1..])
  }

  // Looking ahead never costs more over the window than quantizing greedily.
  lemma SearchNeverLosesToGreedy(q: Quantizer, p: Predictor, window: seq<int>)
    requires |window| > 0
    ensures Best(q, p, window) <= PathCost(q, p, window, GreedyPath(q, p, window))
  {
    BestIsLowerBound(q, p, window, GreedyPath(q, p, window));
  }

  // ----- the window of samples a search reads -----

  /** `count` samples of one channel of interleaved PCM, from index `pos` on. */
  function Strided(pcm: seq<Sample>, pos: nat, channels: nat, count: nat): (s: seq<Sample>)
    requires InReach(pcm, pos, channels, count)
    ensures |s| == count
    decreases count
  {
    if count == 0 then [] else [pcm[pos]] + Strided(pcm, pos + channels, channels, count - 1)
  }

  predicate InReach(pcm: seq<Sample>, pos: nat, channels: nat, count: nat)
    decreases count
  {
    count == 0 || (pos < |pcm| && InReach(pcm, pos + channels, channels, count - 1))
  }

  // ----- branch and bound -----

  /** The pruned search of the source. The window is the (possibly noise-shaped) target
      followed by the next `depth` samples of the channel; `pos` is where the current
      sample sits in the interleaved input. */
  method MinimumError(q: Quantizer, p: Predictor, channels: nat, csample: int, pcm: seq<Sample>, pos: nat, depth: nat)
    returns (minError: nat, bestNibble: Nibble)
    requires InReach(pcm, pos + channels, channels, depth)
    ensures minError == Best(q, p, [csample] + Strided(pcm, pos + channels, channels, depth))
    ensures bestNibble == Choice(q, p, [csample] + Strided(pcm, pos + channels, channels, depth))
    decreases depth
  {
    hide Best, Costs, CostOf, Choice;
    ghost var rest := Strided(pcm, pos + channels, channels, depth);
    ghost var window := [csample] + rest;
    var nibble := q.greedy(p, csample);
    var chan := q.advance(p, nibble);
    bestNibble := nibble;
    minError := q.miss(chan, csample);
    if depth == 0 {
      Leaf(q, p, window);
      return;
    }
    assert rest == [pcm[pos + channels]] + Strided(pcm, pos + channels + channels, channels, depth - 1);
    var ahead, unused := MinimumError(q, chan, channels, pcm[pos + channels], pcm, pos + channels, depth - 1);
    minError := minError + ahead;

    ghost var costs := Costs(q, p, window);
    CostSplit(q, p, csample, rest, nibble);
    for nibble2 := 0 to 16
      invariant minError == costs[bestNibble] <= costs[nibble]
      invariant forall n :: 0 <= n < nibble2 ==> minError <= costs[n]
      invariant bestNibble != nibble ==> minError < costs[nibble]
      invariant bestNibble != nibble ==> forall n :: 0 <= n < bestNibble ==> minError < costs[n]
    {
      CostSplit(q, p, csample, rest, nibble2);
      if nibble2 == nibble {
        continue;
      }
      chan := q.advance(p, nibble2);
      var error := q.miss(chan, csample);
      if error < minError {
        ahead, unused := MinimumError(q, chan, channels, pcm[pos + channels], pcm, pos + channels, depth - 1);
        error := error + ahead;
        if error < minError {
          bestNibble := nibble2;
          minError := error;
        }
      }
    }
    SearchDone(q, p, window, minError, bestNibble);
  }

  lemma Leaf(q: Quantizer, p: Predictor, window: seq<int>)
    requires |window| == 1
    ensures Best(q, p, window) == q.miss(q.advance(p, q.greedy(p, window[0])), window[0])
    ensures Choice(q, p, window) == q.greedy(p, window[0])
  {
  }

  lemma CostSplit(q: Quantizer, p: Predictor, target: int, rest: seq<int>, n: Nibble)
    requires rest != []
    ensures Costs(q, p, [target] + rest)[n] == q.miss(q.advance(p, n), target) + Best(q, q.advance(p, n), rest)
  {
  }

  // A least cost found by strict improvement on the greedy nibble is the search's answer.
  lemma SearchDone(q: Quantizer, p: Predictor, window: seq<int>, minError: nat, bestNibble: Nibble)
    requires |window| > 1
    requires minError == Costs(q, p, window)[bestNibble]
    requires forall n :: 0 <= n < 16 ==> minError <= Costs(q, p, window)[n]
    requires var greedy := q.greedy(p, window[0]);
             bestNibble == greedy
             || (minError < Costs(q, p, window)[greedy]
                 && forall n :: 0 <= n < bestNibble ==> minError < Costs(q, p, window)[n])
    ensures minError == Best(q, p, window) && bestNibble == Choice(q, p, window)
  {
  }
}
