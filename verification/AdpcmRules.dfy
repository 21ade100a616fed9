/**
 What the tables and the bytes of the codec come to, in plain arithmetic: the steps in closed
 form, the value and the index after every nibble, and where everything is in a block.
 */
module AdpcmRules {
  import opened AdpcmPredictor
  import opened AdpcmSearch
  import opened AdpcmLayout
  import opened AdpcmTrace
  import opened AdpcmStereo
  import opened AdpcmCodec
  import opened AdpcmDecoder
  import opened AdpcmRoundTrip

  // ----- the steps -----

  // 16 * 1.1^k
  function Tenths(k: nat): real
  {
    if k == 0 then 16.0 else 1.1 * Tenths(k - 1)
  }

  // Where the rows of the table start, from below and from above.
  const LOW: seq<real> := [
    16.0, 34.297420956, 73.519567765, 157.595722748,
    337.820427669, 724.148088066, 1552.275736461, 3327.440891110,
    7132.665029705, 15289.500821493, 32774.402384791
  ]
  const HIGH: seq<real> := [
    16.0, 34.297420964, 73.519567798, 157.595722877,
    337.820428182, 724.148090115, 1552.275744654, 3327.440923879,
    7132.665160778, 15289.501345782, 32774.404481944
  ]

  lemma EightTenths(k: nat)
    ensures Tenths(k + 1) == 1.1 * Tenths(k) && Tenths(k + 2) == 1.21 * Tenths(k)
    ensures Tenths(k + 3) == 1.331 * Tenths(k) && Tenths(k + 4) == 1.4641 * Tenths(k)
    ensures Tenths(k + 5) == 1.61051 * Tenths(k) && Tenths(k + 6) == 1.771561 * Tenths(k)
    ensures Tenths(k + 7) == 1.9487171 * Tenths(k) && Tenths(k + 8) == 2.14358881 * Tenths(k)
  {
    assert Tenths(k + 4) == 1.1 * Tenths(k + 3);
    assert Tenths(k + 7) == 1.1 * Tenths(k + 6);
  }

  lemma {:induction false} RowStart(r: nat)
    requires r <= 10
    ensures LOW[r] <= Tenths(8 * r) <= HIGH[r]
  {
    if r > 0 {
      hide Tenths;
      RowStart(r - 1);
      EightTenths(8 * (r - 1));
      if
      case r == 1 =>
      case r == 2 =>
      case r == 3 =>
      case r == 4 =>
      case r == 5 =>
      case r == 6 =>
      case r == 7 =>
      case r == 8 =>
      case r == 9 =>
      case r == 10 =>
    }
  }

  // One entry of a row.
  lemma RowEntry(r: nat, col: nat)
    requires r < 10 && col < 8
    ensures STEP_TABLE[r + 1][col] as real <= Tenths(8 * r + col) < STEP_TABLE[r + 1][col] as real + 1.0
  {
    hide Tenths;
    RowStart(r);
    EightTenths(8 * r);
    if
    case r == 0 =>
    case r == 1 =>
    case r == 2 =>
    case r == 3 =>
    case r == 4 =>
    case r == 5 =>
    case r == 6 =>
    case r == 7 =>
    case r == 8 =>
    case r == 9 =>
  }

  /** From index 8 on a step is the integer part of 16 * 1.1^(i - 8), cut to the largest sample at
      the last index; before that it is i + 7. */
  lemma StepsGrowByTenths(i: StepIndex)
    ensures i < 8 ==> Step(i) == i + 7
    ensures 8 <= i < 88 ==> Step(i) as real <= Tenths(i - 8) < Step(i) as real + 1.0
    ensures i == 88 ==> Step(i) == 32767 && 32767.0 < Tenths(i - 8)
  {
    hide Tenths;
    if 8 <= i < 88 {
      RowEntry(i / 8 - 1, i % 8);
    } else if i == 88 {
      RowStart(10);
    }
  }

  // ----- one nibble -----

  // The nearest value of the range.
  predicate Clipped(y: int, x: int, lo: int, hi: int)
  {
    lo <= y <= hi && (x < lo ==> y == lo) && (x > hi ==> y == hi) && (lo <= x <= hi ==> y == x)
  }

  /** What a nibble with magnitude m does to a value and an index: the value moves by m / 4 of the
      step and half a quarter more, each part truncated, up to 7 and down from 8 on; the index
      falls by one for a magnitude below four and rises by 2 * (m - 3) from there on. */
  ghost predicate Moves(p: Predictor, n: Nibble, q: Predictor)
  {
    var s, m := Step(p.index), n % 8;
    var change := s / 8 + (if m % 2 == 1 then s / 4 else 0) + (if m / 2 % 2 == 1 then s / 2 else 0)
                  + (if m >= 4 then s else 0);
    && Clipped(q.pcm, if n < 8 then p.pcm + change else p.pcm - change, -32768, 32767)
    && Clipped(q.index, p.index + (if m < 4 then -1 else 2 * (m - 3)), 0, 88)
  }

  lemma TrialRule(s: int, n: Nibble)
    ensures var m := n % 8;
            var change := s / 8 + (if m % 2 == 1 then s / 4 else 0) + (if m / 2 % 2 == 1 then s / 2 else 0)
                          + (if m >= 4 then s else 0);
            TrialDelta(s, n) == if n < 8 then change else -change
  {
    if
    case n % 8 == 0 =>
    case n % 8 == 1 =>
    case n % 8 == 2 =>
    case n % 8 == 3 =>
    case n % 8 == 4 =>
    case n % 8 == 5 =>
    case n % 8 == 6 =>
    case n % 8 == 7 =>
  }

  lemma IndexRule(m: nat)
    requires m < 8
    ensures INDEX_TABLE[m] == if m < 4 then -1 else 2 * (m - 3)
  {
  }

  /** The predictor's update is exactly that, for every state and nibble. */
  lemma AdvanceRule(p: Predictor, n: Nibble, q: Predictor)
    ensures Advance(p, n) == q <==> Moves(p, n, q)
  {
    TrialRule(Step(p.index), n);
    IndexRule(n % 8);
    hide Step, TrialDelta;
  }

  /** The greedy nibble: the sign in bit 3, set only below the value, and at most seven quarter
      steps of the distance. */
  lemma GreedyRule(p: Predictor, target: int)
    ensures var quarters := (if target < p.pcm then p.pcm - target else target - p.pcm) * 4 / Step(p.index);
            Greedy(p, target) == (if target < p.pcm then 8 else 0) + (if quarters > 7 then 7 else quarters)
  {
    hide Step;
  }

  // ----- the bytes of a block -----

  // A header is accepted for its index and its reserved byte.
  lemma AcceptedRule(block: seq<Byte>, channels: nat)
    ensures Accepted(block, channels)
       <==> 4 * channels <= |block| && forall ch :: 0 <= ch < channels ==> block[4 * ch + 2] <= 88 && block[4 * ch + 3] == 0
  {
    if 4 * channels <= |block| && forall ch :: 0 <= ch < channels ==> block[4 * ch + 2] <= 88 && block[4 * ch + 3] == 0 {
      assert forall ch :: 0 <= ch < channels ==> HeaderAccepted(block, channels, ch);
    }
    if Accepted(block, channels) {
      forall ch | 0 <= ch < channels
        ensures block[4 * ch + 2] <= 88 && block[4 * ch + 3] == 0
      {
        assert HeaderAccepted(block, channels, ch);
      }
    }
  }

  // A 16-bit value, low byte first.
  predicate Holds16(x: int, lo: Byte, hi: Byte)
  {
    -32768 <= x <= 32767 && (x == lo + 256 * hi || x == lo + 256 * hi - 65536)
  }

  // The byte of nibble k of a channel.
  function NibbleByte(channels: nat, ch: nat, k: nat): nat
  {
    4 * ((k / 8 + 1) * channels + ch) + k % 8 / 2
  }

  // Nibble k of a channel: the low half of its byte for an even k.
  predicate HasNibble(block: seq<Byte>, channels: nat, ch: nat, k: nat, n: int)
  {
    var at := NibbleByte(channels, ch, k);
    at < |block| && n == if k % 2 == 0 then block[at] % 16 else block[at] / 16
  }

  predicate HasSample(samples: seq<Sample>, at: int, x: int)
  {
    0 <= at < |samples| && samples[at] == x
  }

  // Nibble k of a channel moves one state to the other.
  ghost predicate MovesBy(block: seq<Byte>, channels: nat, ch: nat, k: nat, p: Predictor, q: Predictor)
  {
    exists nibble: Nibble :: HasNibble(block, channels, ch, k, nibble) && Moves(p, nibble, q)
  }

  lemma InSlot(out: seq<Sample>, channels: nat, ch: nat, t: Track, n: nat, k: nat)
    requires k <= n <= |t.nibbles| && Decoded(out, channels, ch, t, n)
    ensures HasSample(out, Slot(channels, k, ch), DecodedAt(Ima(), t, k).pcm)
  {
    hide DecodedAt;
  }

  /** What the decoder outputs, from the bytes of the block alone: the first value of a channel is
      its header's, and each next one is where the next nibble moves it. */
  lemma DecodedRule(out: seq<Sample>, before: seq<Sample>, inbuf: seq<Byte>, channels: nat, ch: nat)
    returns (states: seq<Predictor>)
    requires 1 <= channels <= 2 && ch < channels && Accepted(inbuf, channels)
    requires DecodedAll(out, before, inbuf, channels, 8 * ChunkCount(|inbuf|, channels))
    ensures var n := 8 * ((|inbuf| - 4 * channels) / (4 * channels));
            && |states| == n + 1
            && Holds16(states[0].pcm, inbuf[4 * ch], inbuf[4 * ch + 1]) && states[0].index == inbuf[4 * ch + 2]
            && (forall k :: 0 <= k <= n ==> HasSample(out, k * channels + ch, states[k].pcm))
            && (forall k :: 0 <= k < n ==> MovesBy(inbuf, channels, ch, k, states[k], states[k + 1]))
  {
    hide DecodedAt, ReadTrack, MovesBy, Slot, Holds16, HasSample;
    var t, n := ReadTrack(inbuf, channels, ch), 8 * ChunkCount(|inbuf|, channels);
    states := seq(n + 1, k requires 0 <= k <= n => DecodedAt(Ima(), t, k));
    DecodedStart(inbuf, channels, ch);
    assert Decoded(out, channels, ch, t, n);
    forall k: nat | k <= n
      ensures HasSample(out, k * channels + ch, states[k].pcm)
    {
      SlotIsInterleaved(channels, k, ch);
      InSlot(out, channels, ch, t, n, k);
    }
    forall k: nat | k < n
      ensures MovesBy(inbuf, channels, ch, k, states[k], states[k + 1])
    {
      DecodedMove(inbuf, channels, ch, k);
    }
  }

  lemma DecodedStart(inbuf: seq<Byte>, channels: nat, ch: nat)
    requires ch < channels && Accepted(inbuf, channels)
    ensures var p := DecodedAt(Ima(), ReadTrack(inbuf, channels, ch), 0);
            Holds16(p.pcm, inbuf[4 * ch], inbuf[4 * ch + 1]) && p.index == inbuf[4 * ch + 2]
  {
    assert HeaderAccepted(inbuf, channels, ch);
  }

  lemma DecodedMove(inbuf: seq<Byte>, channels: nat, ch: nat, k: nat)
    requires ch < channels && Accepted(inbuf, channels) && k < 8 * ChunkCount(|inbuf|, channels)
    ensures var t := ReadTrack(inbuf, channels, ch);
            MovesBy(inbuf, channels, ch, k, DecodedAt(Ima(), t, k), DecodedAt(Ima(), t, k + 1))
  {
    TrackNibble(inbuf, channels, ch, k);
    hide ReadTrack, HasNibble, Advance, Moves;
    var t := ReadTrack(inbuf, channels, ch);
    AdvanceRule(DecodedAt(Ima(), t, k), t.nibbles[k], DecodedAt(Ima(), t, k + 1));
  }

  lemma TrackNibble(inbuf: seq<Byte>, channels: nat, ch: nat, k: nat)
    requires ch < channels && Accepted(inbuf, channels) && k < 8 * ChunkCount(|inbuf|, channels)
    ensures HasNibble(inbuf, channels, ch, k, ReadTrack(inbuf, channels, ch).nibbles[k])
  {
    UnitsFit(|inbuf|, channels, ch, k / 8 + 1);
    LanesProduct(k / 8 + 1, channels);
  }

  /** The smallest case that tells the middle entries of the index table apart: from zero, two
      nibbles of magnitude four give 7 and then 17. */
  lemma FourThenFour()
    ensures Moves(Predictor(0, 0), 4, Predictor(7, 2)) && Moves(Predictor(7, 2), 4, Predictor(17, 4))
  {
    assert Step(0) == 7 && Step(2) == 9;
  }

  /** What the encoder writes: for every channel the block's first sample, low byte first, the index
      it was left with and a zero, and the chosen nibbles in pairs, the earlier one in the low half. */
  lemma EncodedBytes(c: Context, before: seq<Channel>, after: seq<Channel>, pcm: seq<Sample>, count: nat,
                     bytes: seq<Byte>, ch: nat)
    requires c.Valid() && |before| == |after| == 2 && count > 0 && Lanes(ReadCount(count), c.numChannels) <= |pcm|
    requires c.Encoded(before, after, pcm, count, bytes) && ch < c.numChannels
    ensures 4 * ch + 3 < |bytes| && ch < |pcm| && Holds16(pcm[ch], bytes[4 * ch], bytes[4 * ch + 1])
    ensures bytes[4 * ch + 2] == before[ch].pred.index && bytes[4 * ch + 3] == 0
    ensures var s := StreamsOf(before, c.numChannels, pcm, count)[ch];
            forall k :: 0 <= k < |s.samples| ==>
              HasNibble(bytes, c.numChannels, ch, k, NibbleAt(c.Cfg(), s.chan, s.samples, k))
  {
    hide Block, EncodedBlock, StateAt, NibbleAt, StreamsOf, ReadTrack, Lanes, HasNibble;
    var n, chunks := c.numChannels, (count - 1) / 8;
    var streams := StreamsOf(before, n, pcm, count);
    var tracks := TracksOf(c.Cfg(), streams);
    EncodedAccepted(c, before, after, pcm, count, bytes);
    AsBlock(c.Cfg(), streams, chunks);
    LayoutRoundTrip(tracks, chunks, ch);
    StreamStart(c.Cfg(), before, n, pcm, count, ch);
    HeaderBytes(tracks, chunks, ch);
    forall k: nat | k < 8 * chunks
      ensures HasNibble(bytes, n, ch, k, NibbleAt(c.Cfg(), streams[ch].chan, streams[ch].samples, k))
    {
      TrackNibble(bytes, n, ch, k);
    }
  }

  lemma HeaderBytes(tracks: seq<Track>, chunks: nat, ch: nat)
    requires Rectangular(tracks, chunks) && ch < |tracks|
    ensures var block, p := Block(tracks, chunks), tracks[ch].header;
            && 4 * ch + 3 < |block| && Holds16(p.pcm, block[4 * ch], block[4 * ch + 1])
            && block[4 * ch + 2] == p.index && block[4 * ch + 3] == 0
  {
    HeaderUnit(|tracks|, ch);
    TrackByte(tracks, chunks, ch, 0, 0);
    TrackByte(tracks, chunks, ch, 0, 1);
    TrackByte(tracks, chunks, ch, 0, 2);
    TrackByte(tracks, chunks, ch, 0, 3);
    hide Block, UnitAt;
  }

  /** Which samples a channel encodes: after the first, the one of its place in every composite
      sample, in order. */
  lemma StreamSamples(before: seq<Channel>, channels: nat, pcm: seq<Sample>, count: nat, ch: nat)
    requires ch < channels <= |before| && count > 0 && Lanes(ReadCount(count), channels) <= |pcm|
    ensures var s := StreamsOf(before, channels, pcm, count)[ch];
            && ch < |pcm| && s.chan == before[ch].(pred := Predictor(pcm[ch], before[ch].pred.index))
            && |s.samples| == 8 * ((count - 1) / 8)
            && forall k :: 0 <= k < |s.samples| ==>
                 HasSample(pcm, (k + 1) * channels + ch, s.samples[k])
  {
    StreamFits(pcm, channels, count, ch);
    hide Strided, InReach, Lanes;
    var n := 8 * ((count - 1) / 8);
    var samples := StreamsOf(before, channels, pcm, count)[ch].samples;
    assert samples == Strided(pcm, channels + ch, channels, n);
    forall k: nat | k < n
      ensures HasSample(pcm, (k + 1) * channels + ch, samples[k])
    {
      StridedAt(pcm, channels + ch, channels, n, k);
      PlaceOf(channels, ch, k);
    }
  }

  lemma PlaceOf(channels: nat, ch: nat, k: nat)
    ensures channels + ch + Lanes(k, channels) == (k + 1) * channels + ch
  {
    LanesProduct(k, channels);
  }
}
