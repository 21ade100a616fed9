/**
 The adaptive predictor shared by the IMA/DVI ADPCM encoder and decoder: the two
 tables, the nibble-driven update, and the greedy choice of a nibble.
 */
module AdpcmPredictor {

  type Sample = x: int | -32768 <= x <= 32767
  type StepIndex = i: int | 0 <= i <= 88
  type Nibble = n: int | 0 <= n < 16

  // The 89 quantizer steps, laid out in rows of eight as in the source.
  const STEP_TABLE: seq<seq<int>> := [
    [7, 8, 9, 10, 11, 12, 13, 14],
    [16, 17, 19, 21, 23, 25, 28, 31],
    [34, 37, 41, 45, 50, 55, 60, 66],
    [73, 80, 88, 97, 107, 118, 130, 143],
    [157, 173, 190, 209, 230, 253, 279, 307],
    [337, 371, 408, 449, 494, 544, 598, 658],
    [724, 796, 876, 963, 1060, 1166, 1282, 1411],
    [1552, 1707, 1878, 2066, 2272, 2499, 2749, 3024],
    [3327, 3660, 4026, 4428, 4871, 5358, 5894, 6484],
    [7132, 7845, 8630, 9493, 10442, 11487, 12635, 13899],
    [15289, 16818, 18500, 20350, 22385, 24623, 27086, 29794],
    [32767]
  ]

  // Index change for the three magnitude bits of a nibble.
  const INDEX_TABLE: seq<int> := [-1, -1, -1, -1, 2, 4, 6, 8]

  function Step(i: StepIndex): (s: int)
    ensures 7 <= s <= 32767
  {
    STEP_TABLE[i / 8][i % 8]
  }

  function Clip(x: int, lo: int, hi: int): (r: int)
    requires lo <= hi
    ensures lo <= r <= hi
  {
    if x > hi then hi else if x < lo then lo else x
  }

  // n & mask, for a mask that is a power of two
  predicate BitSet(n: nat, mask: nat)
    requires mask > 0
  {
    n / mask % 2 == 1
  }

  // The signed change of the predicted value that a nibble stands for.
  function TrialDelta(step: int, nibble: Nibble): int
  {
    var magnitude := step / 8
                     + (if BitSet(nibble, 1) then step / 4 else 0)
                     + (if BitSet(nibble, 2) then step / 2 else 0)
                     + (if BitSet(nibble, 4) then step else 0);
    if BitSet(nibble, 8) then -magnitude else magnitude
  }

  datatype Predictor = Predictor(pcm: Sample, index: StepIndex)

  function Advance(p: Predictor, nibble: Nibble): Predictor
  {
    Predictor(Clip(p.pcm + TrialDelta(Step(p.index), nibble), -32768, 32767),
              Clip(p.index + INDEX_TABLE[nibble % 8], 0, 88))
  }

  // The magnitude bits for a distance: how many quarter steps fit, at most seven.
  function Magnitude(distance: nat, step: int): (mag: nat)
    requires step > 0
    ensures mag <= 7 && mag * step <= 4 * distance
    ensures mag < 7 ==> 4 * distance < (mag + 1) * step
  {
    var quarters := distance * 4 / step;
    QuotientBounds(distance * 4, step);
    if quarters > 7 then 7 else quarters
  }

  lemma QuotientBounds(x: nat, d: int)
    requires d > 0
    ensures 0 <= x / d
    ensures x / d * d <= x < (x / d + 1) * d
    ensures x / d > 7 ==> 7 * d <= x
  {
  }

  lemma MulMonotone(a: nat, b: nat, d: nat)
    requires a <= b
    ensures a * d <= b * d
  {
  }

  // The nibble a plain quantizer picks: sign bit and magnitude.
  function Greedy(p: Predictor, csample: int): Nibble
  {
    var delta := csample - p.pcm;
    if delta < 0 then
      8 + Magnitude(-delta, Step(p.index))
    else
      Magnitude(delta, Step(p.index))
  }

  // Neighbouring steps grow, by at most a quarter.
  lemma StepGrowth(i: StepIndex)
    requires i < 88
    ensures Step(i) < Step(i + 1) && 8 * Step(i + 1) <= 10 * Step(i)
  {
    var row, col := i / 8, i % 8;
    assert (i + 1) / 8 == (if col < 7 then row else row + 1);
    assert (i + 1) % 8 == (if col < 7 then col + 1 else 0);
    RowGrowth(row, col);
  }

  lemma RowGrowth(row: nat, col: nat)
    requires row < 11 && col < 8
    ensures col < 7 ==>
              var s, t := STEP_TABLE[row][col], STEP_TABLE[row][col + 1];
              s < t && 8 * t <= 10 * s
    ensures col == 7 ==>
              var s, t := STEP_TABLE[row][7], STEP_TABLE[row + 1][0];
              s < t && 8 * t <= 10 * s
  {
  }

  lemma StepMonotone(i: StepIndex, j: StepIndex)
    requires i <= j
    ensures Step(i) <= Step(j)
    decreases j - i
  {
    if i < j {
      StepMonotone(i, j - 1);
      StepGrowth(j - 1);
    }
  }

  // ----- choosing the initial step -----

  // The first index, from the given one on, whose midpoint with the next step lies above the delta.
  function InitialIndex(delta: int, from: StepIndex): StepIndex
    decreases 88 - from
  {
    if from == 88 || delta < (Step(from) + Step(from + 1)) / 2 then from else InitialIndex(delta, from + 1)
  }
}
