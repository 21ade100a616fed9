/**
 What the encoder does to one channel of a block, sample by sample, and why the decoder
 stays in lockstep with it.
 */
module AdpcmTrace {
  import opened AdpcmPredictor
  import opened AdpcmSearch
  import opened AdpcmLayout

  datatype NoiseShaping = Off | Static | Dynamic

  /** The encoder's per-channel state; `recent` and `older` are the two history samples. */
  datatype Channel = Channel(pred: Predictor, error: int, weight: int, recent: int, older: int)

  datatype Config = Config(q: Quantizer, shaping: NoiseShaping, lookahead: nat)

  // ----- one sample -----

  // Arithmetic shift right by ten, with rounding.
  function Scaled(x: int): int
  {
    (x + 512) / 1024
  }

  // The adaptation weight moves by two towards the side the signal leans.
  function Adapted(weight: int, slope: int, residue: int): int
  {
    if slope == 0 || residue == 0 then weight
    else if (slope < 0) != (residue < 0) then weight - 2
    else weight + 2
  }

  function ShapingWeight(weight: int): int
  {
    if weight < 256 then 1024 else 1536 - weight * 2
  }

  // Error feedback; a negative weight must not hand the error straight back.
  function Feedback(sw: int, error: int): int
  {
    var feedback := -Scaled(sw * error);
    if sw < 0 && feedback != 0 && feedback == error then
      if feedback < 0 then feedback + 1 else feedback - 1
    else feedback
  }

  /** The target the search aims for, and the channel with its noise-shaping fields
      updated up to, but not including, the reconstructed sample. */
  function Shape(shaping: NoiseShaping, c: Channel, sample: int): (int, Channel)
  {
    match shaping
    case Off => (sample, c)
    case Static => (sample - c.error, c.(error := -(sample - c.error)))
    case Dynamic =>
      var slope := (3 * c.recent - c.older) / 2;
      var weight := Adapted(c.weight, slope, sample - Scaled(c.weight * slope));
      var sw := ShapingWeight(weight);
      var target := sample + Feedback(sw, c.error);
      var kept := if sw < 0 && target != sample then sample else target;
      (target, Channel(c.pred, -kept, weight, sample, c.recent))
  }

  function Depth(lookahead: nat, remaining: nat): (depth: nat)
    requires remaining > 0
    ensures depth < remaining
  {
    if remaining - 1 > lookahead then lookahead else remaining - 1
  }

  // The window the search sees: the shaped target, then unshaped samples.
  function SearchWindow(cfg: Config, target: int, samples: seq<Sample>): (window: seq<int>)
    requires samples != []
    ensures window != []
  {
    [target] + samples[1..1 + Depth(cfg.lookahead, |samples|)]
  }

  // The channel after the chosen nibble.
  function Settle(cfg: Config, shaped: Channel, nibble: Nibble): Channel
  {
    var pred := cfg.q.advance(shaped.pred, nibble);
    shaped.(pred := pred,
            error := if cfg.shaping.Off? then shaped.error else shaped.error + pred.pcm)
  }

  /** Encodes the first of the channel's remaining samples of the block. */
  function EncodeStep(cfg: Config, c: Channel, samples: seq<Sample>): (Nibble, Channel)
    requires samples != []
  {
    var (target, shaped) := Shape(cfg.shaping, c, samples[0]);
    var nibble := Choice(cfg.q, c.pred, SearchWindow(cfg, target, samples));
    (nibble, Settle(cfg, shaped, nibble))
  }

  // ----- a whole channel of a block -----

  ghost function StateAt(cfg: Config, c: Channel, samples: seq<Sample>, k: nat): Channel
    requires k <= |samples|
  {
    if k == 0 then c else EncodeStep(cfg, StateAt(cfg, c, samples, k - 1), samples[k - 1..]).1
  }

  ghost function NibbleAt(cfg: Config, c: Channel, samples: seq<Sample>, k: nat): Nibble
    requires k < |samples|
  {
    EncodeStep(cfg, StateAt(cfg, c, samples, k), samples[k..]).0
  }

  ghost function TrackOf(cfg: Config, c: Channel, samples: seq<Sample>): (t: Track)
    ensures t.header == c.pred && |t.nibbles| == |samples|
    ensures forall k :: 0 <= k < |samples| ==> t.nibbles[k] == NibbleAt(cfg, c, samples, k)
  {
    Track(c.pred, seq(|samples|, k requires 0 <= k < |samples| => NibbleAt(cfg, c, samples, k)))
  }

  lemma ShapeKeepsPredictor(shaping: NoiseShaping, c: Channel, sample: int)
    ensures Shape(shaping, c, sample).1.pred == c.pred
  {
  }

  lemma TracePred(cfg: Config, c: Channel, samples: seq<Sample>, k: nat)
    requires k < |samples|
    ensures StateAt(cfg, c, samples, k + 1).pred
         == cfg.q.advance(StateAt(cfg, c, samples, k).pred, NibbleAt(cfg, c, samples, k))
  {
  }

  // ----- decoding -----

  /** The decoder's predictor after k nibbles of a track. */
  function DecodedAt(q: Quantizer, t: Track, k: nat): Predictor
    requires k <= |t.nibbles|
  {
    if k == 0 then t.header else q.advance(DecodedAt(q, t, k - 1), t.nibbles[k - 1])
  }

  /** Whatever the quantizer, lookahead, noise shaping and the state the channel was left
      in, the decoder's predictor repeats the encoder's, sample by sample. */
  lemma {:induction false} Lockstep(cfg: Config, c: Channel, samples: seq<Sample>, k: nat)
    requires k <= |samples|
    ensures DecodedAt(cfg.q, TrackOf(cfg, c, samples), k) == StateAt(cfg, c, samples, k).pred
  {
    if k > 0 {
      Lockstep(cfg, c, samples, k - 1);
      TracePred(cfg, c, samples, k - 1);
    }
  }

  /** A channel at the start of a block, its predictor already set to the block's first
      sample, and the samples that follow. */
  datatype Stream = Stream(chan: Channel, samples: seq<Sample>)

  ghost function TracksOf(cfg: Config, streams: seq<Stream>): (tracks: seq<Track>)
    ensures |tracks| == |streams|
    ensures forall ch :: 0 <= ch < |streams| ==> tracks[ch] == TrackOf(cfg, streams[ch].chan, streams[ch].samples)
  {
    seq(|streams|, ch requires 0 <= ch < |streams| => TrackOf(cfg, streams[ch].chan, streams[ch].samples))
  }

  ghost predicate SameLength(streams: seq<Stream>, chunks: nat)
  {
    forall ch :: 0 <= ch < |streams| ==> |streams[ch].samples| == 8 * chunks
  }

  ghost function EncodedBlock(cfg: Config, streams: seq<Stream>, chunks: nat): seq<Byte>
    requires SameLength(streams, chunks)
  {
    Block(TracksOf(cfg, streams), chunks)
  }

  // Sample k of channel ch of a decoded block.
  function DecodedSample(q: Quantizer, block: seq<Byte>, channels: nat, ch: nat, k: nat): Sample
    requires ch < channels && Accepted(block, channels) && k <= 8 * ChunkCount(|block|, channels)
  {
    DecodedAt(q, ReadTrack(block, channels, ch), k).pcm
  }

  /** Decoding an encoded block gives the block's first sample and then exactly the values
      the encoder's own predictor went through. */
  lemma BlockLockstep(cfg: Config, streams: seq<Stream>, chunks: nat, ch: nat, k: nat)
    requires SameLength(streams, chunks) && ch < |streams| && k <= 8 * chunks
    ensures Accepted(EncodedBlock(cfg, streams, chunks), |streams|)
    ensures ChunkCount(|EncodedBlock(cfg, streams, chunks)|, |streams|) == chunks
    ensures DecodedSample(cfg.q, EncodedBlock(cfg, streams, chunks), |streams|, ch, k)
         == StateAt(cfg, streams[ch].chan, streams[ch].samples, k).pred.pcm
  {
    var tracks := TracksOf(cfg, streams);
    BlockAccepted(tracks, chunks);
    LayoutRoundTrip(tracks, chunks, ch);
    Lockstep(cfg, streams[ch].chan, streams[ch].samples, k);
  }

  // ----- conservation of the quantization error -----

  // Sum of reconstructed minus input over the first n samples.
  ghost function Drift(cfg: Config, c: Channel, samples: seq<Sample>, n: nat): int
    requires n <= |samples|
  {
    if n == 0 then 0
    else Drift(cfg, c, samples, n - 1) + StateAt(cfg, c, samples, n).pred.pcm - samples[n - 1]
  }

  /** Static noise shaping carries the error forward: none of it is ever lost, whatever
      nibbles the search chose. */
  lemma {:induction false} StaticShapingConserves(cfg: Config, c: Channel, samples: seq<Sample>, n: nat)
    requires cfg.shaping.Static? && n <= |samples|
    ensures Drift(cfg, c, samples, n) == StateAt(cfg, c, samples, n).error - c.error
  {
    if n > 0 {
      StaticShapingConserves(cfg, c, samples, n - 1);
    }
  }

  // A channel whose predictor is set to the first sample of a block.
  function BlockStart(c: Channel, first: Sample): Channel
  {
    c.(pred := Predictor(first, c.pred.index))
  }

  /** A run of blocks of one channel, each given by its samples: the predictor restarts from
      the first of them, the index and the error are carried over. */
  ghost function AfterBlocks(cfg: Config, c: Channel, blocks: seq<seq<Sample>>): Channel
  {
    if blocks == [] then c
    else
      var before, b := AfterBlocks(cfg, c, blocks[..|blocks| - 1]), blocks[|blocks| - 1];
      if b == [] then before else StateAt(cfg, BlockStart(before, b[0]), b[1..], |b| - 1)
  }

  // Sum of reconstructed minus input over all samples of some blocks.
  ghost function TotalDrift(cfg: Config, c: Channel, blocks: seq<seq<Sample>>): int
  {
    if blocks == [] then 0
    else
      var earlier, b := blocks[..|blocks| - 1], blocks[|blocks| - 1];
      if b == [] then TotalDrift(cfg, c, earlier)
      else
        var start := BlockStart(AfterBlocks(cfg, c, earlier), b[0]);
        TotalDrift(cfg, c, earlier) + (start.pred.pcm - b[0]) + Drift(cfg, start, b[1..], |b| - 1)
  }

  /** The same over any number of blocks: from a fresh channel, the sum of everything decoded
      and the sum of everything encoded differ by the error still carried. */
  lemma {:induction false} BlocksConserve(cfg: Config, c: Channel, blocks: seq<seq<Sample>>)
    requires cfg.shaping.Static?
    ensures TotalDrift(cfg, c, blocks) == AfterBlocks(cfg, c, blocks).error - c.error
    decreases |blocks|
  {
    hide StateAt, Drift;
    if blocks != [] {
      var earlier, b := blocks[..|blocks| - 1], blocks[|blocks| - 1];
      BlocksConserve(cfg, c, earlier);
      if b != [] {
        StaticShapingConserves(cfg, BlockStart(AfterBlocks(cfg, c, earlier), b[0]), b[1..], |b| - 1);
      }
    }
  }
}
