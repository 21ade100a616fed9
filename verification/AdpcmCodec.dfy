/**
 The block encoder: a context whose channels are updated sample by sample, writing the block
 into a buffer in place.
 */
module AdpcmCodec {
  import opened AdpcmPredictor
  import opened AdpcmSearch
  import opened AdpcmLayout
  import opened AdpcmTrace

  /** Noise shaping of one sample, before the search. */
  method ShapeSample(shaping: NoiseShaping, c: Channel, sample: int) returns (csample: int, pchan: Channel)
    ensures (csample, pchan) == Shape(shaping, c, sample)
  {
    csample, pchan := sample, c;
    if shaping == Dynamic {
      var slope := (3 * pchan.recent - pchan.older) / 2;
      var temp := csample - Scaled(pchan.weight * slope);
      if slope != 0 && temp != 0 {
        pchan := pchan.(weight := pchan.weight - (if (slope < 0) != (temp < 0) then 2 else -2));
      }
      pchan := pchan.(older := pchan.recent);
      pchan := pchan.(recent := csample);
      var sw := ShapingWeight(pchan.weight);
      temp := -Scaled(sw * pchan.error);
      if sw < 0 && temp != 0 {
        if temp == pchan.error {
          temp := if temp < 0 then temp + 1 else temp - 1;
        }
        pchan := pchan.(error := -csample);
        csample := csample + temp;
      } else {
        csample := csample + temp;
        pchan := pchan.(error := -csample);
      }
    } else if shaping == Static {
      csample := csample - pchan.error;
      pchan := pchan.(error := -csample);
    }
  }

  // Bytes of a block of `count` composite samples.
  function BlockSize(channels: nat, count: nat): nat
  {
    if count == 0 then 0 else 4 * channels * (1 + (count - 1) / 8)
  }

  /** The channel is k samples into its stream, the rest of which lies from `pos` on in the
      interleaved input. */
  ghost predicate AtSample(cfg: Config, channels: nat, s: Stream, state: Channel, pcm: seq<Sample>, pos: nat, k: nat)
  {
    && k <= |s.samples|
    && InReach(pcm, pos, channels, |s.samples| - k)
    && Strided(pcm, pos, channels, |s.samples| - k) == s.samples[k..]
    && state == StateAt(cfg, s.chan, s.samples, k)
  }

  // The same in chunks of eight samples.
  ghost predicate At(cfg: Config, channels: nat, s: Stream, state: Channel, pcm: seq<Sample>, pos: nat,
                     total: nat, done: nat)
  {
    done <= total && |s.samples| == 8 * total && AtSample(cfg, channels, s, state, pcm, pos, 8 * done)
  }

  /** How many of `count` composite samples a block takes in: the first one and whole groups of
      eight. Nothing beyond them has to be there. */
  function ReadCount(count: nat): nat
  {
    if count == 0 then 0 else 1 + 8 * ((count - 1) / 8)
  }

  /** What each channel has to encode in a block of `count` composite samples: only whole
      groups of eight after the first sample. */
  ghost function StreamsOf(before: seq<Channel>, channels: nat, pcm: seq<Sample>, count: nat): (streams: seq<Stream>)
    requires channels <= |before| && count > 0 && Lanes(ReadCount(count), channels) <= |pcm|
    ensures |streams| == channels && SameLength(streams, (count - 1) / 8)
  {
    seq(channels, ch requires 0 <= ch < channels =>
      StreamFits(pcm, channels, count, ch);
      Stream(BlockStart(before[ch], pcm[ch]), Strided(pcm, channels + ch, channels, 8 * ((count - 1) / 8))))
  }

  lemma StreamFits(pcm: seq<Sample>, channels: nat, count: nat, ch: nat)
    requires count > 0 && Lanes(ReadCount(count), channels) <= |pcm| && ch < channels
    ensures ch < |pcm| && InReach(pcm, channels + ch, channels, 8 * ((count - 1) / 8))
  {
    LanesMonotone(1, ReadCount(count), channels);
    InReachWithin(pcm, channels, 1, 8 * ((count - 1) / 8), ch);
  }

  lemma {:induction false} InReachWithin(pcm: seq<Sample>, channels: nat, row: nat, n: nat, ch: nat)
    requires ch < channels && Lanes(row + n, channels) <= |pcm|
    ensures InReach(pcm, Lanes(row, channels) + ch, channels, n)
    decreases n
  {
    if n > 0 {
      LanesMonotone(row + 1, row + n, channels);
      InReachWithin(pcm, channels, row + 1, n - 1, ch);
    }
  }

  method WriteHeader(outbuf: array<Byte>, o: nat, p: Predictor)
    requires o + 4 <= outbuf.Length
    modifies outbuf
    ensures outbuf[..o + 4] == old(outbuf[..o]) + Header(p)
    ensures outbuf[o + 4..] == old(outbuf[o + 4..])
  {
    outbuf[o] := p.pcm % 256;
    outbuf[o + 1] := p.pcm / 256 % 256;
    outbuf[o + 2] := p.index;
    outbuf[o + 3] := 0;
  }

  class Context {
    const channels: array<Channel>
    const numChannels: nat
    const lookahead: nat
    const shaping: NoiseShaping

    ghost predicate Valid()
    {
      channels.Length == 2 && 1 <= numChannels <= 2
    }

    ghost function Cfg(): Config
    {
      Config(Ima(), shaping, lookahead)
    }

    constructor (numChannels: nat, lookahead: nat, shaping: NoiseShaping, initialDeltas: seq<int>)
      requires 1 <= numChannels <= 2 && numChannels <= |initialDeltas|
      ensures Valid() && fresh(channels)
      ensures this.numChannels == numChannels && this.lookahead == lookahead && this.shaping == shaping
      ensures forall ch :: 0 <= ch < numChannels ==>
                channels[ch] == Channel(Predictor(0, InitialIndex(initialDeltas[ch], 0)), 0, 0, 0, 0)
      ensures forall ch :: numChannels <= ch < 2 ==> channels[ch] == Channel(Predictor(0, 0), 0, 0, 0, 0)
    {
      hide Step;
      this.numChannels, this.lookahead, this.shaping := numChannels, lookahead, shaping;
      channels := new Channel[2](_ => Channel(Predictor(0, 0), 0, 0, 0, 0));
      new;
      for ch := 0 to numChannels
        invariant forall c :: 0 <= c < ch ==>
                    channels[c] == Channel(Predictor(0, InitialIndex(initialDeltas[c], 0)), 0, 0, 0, 0)
        invariant forall c :: ch <= c < 2 ==> channels[c] == Channel(Predictor(0, 0), 0, 0, 0, 0)
      {
        var i := 0;
        while !(i == 88 || initialDeltas[ch] < (Step(i) + Step(i + 1)) / 2)
          invariant 0 <= i <= 88
          invariant InitialIndex(initialDeltas[ch], 0) == InitialIndex(initialDeltas[ch], i)
          decreases 88 - i
        {
          i := i + 1;
        }
        channels[ch] := channels[ch].(pred := Predictor(channels[ch].pred.pcm, i));
      }
    }

    /** Encodes one sample of channel ch: the one at `pos` of the interleaved input, with
        `count` samples of the channel left in the block. */
    method EncodeSample(ch: nat, pcm: seq<Sample>, pos: nat, count: nat) returns (nibble: Nibble)
      requires Valid() && ch < numChannels
      requires count > 0 && InReach(pcm, pos, numChannels, count)
      modifies channels
      ensures (nibble, channels[ch]) == EncodeStep(Cfg(), old(channels[ch]), Strided(pcm, pos, numChannels, count))
      ensures channels[1 - ch] == old(channels[1 - ch])
    {
      hide Advance, Greedy, Miss, Choice, EncodeStep, Shape, Strided;
      ghost var samples := Strided(pcm, pos, numChannels, count);
      var pchan := channels[ch];
      ghost var before := pchan;
      var csample: int := pcm[pos];
      var depth := count - 1;

      csample, pchan := ShapeSample(shaping, pchan, csample);
      ghost var shaped := pchan;
      if depth > lookahead {
        depth := lookahead;
      }
      StridedFirst(pcm, pos, numChannels, count);
      StridedPrefix(pcm, pos, numChannels, count, depth);
      var unused;
      unused, nibble := MinimumError(Ima(), pchan.pred, numChannels, csample, pcm, pos, depth);

      pchan := pchan.(pred := Advance(pchan.pred, nibble));
      if shaping != Off {
        pchan := pchan.(error := pchan.error + pchan.pred.pcm);
      }
      channels[ch] := pchan;
      ShapeKeepsPredictor(shaping, before, samples[0]);
      EncodeStepParts(Cfg(), before, samples, csample, shaped, nibble);
    }

    /** Two samples of channel ch into one byte, the first in the low nibble; `k` samples of
        its stream are already encoded. */
    method EncodeByte(ch: nat, pcm: seq<Sample>, pos: nat, count: nat, ghost s: Stream, ghost k: nat) returns (b: Byte)
      requires Valid() && ch < numChannels && count >= 2
      requires k + count == |s.samples| && AtSample(Cfg(), numChannels, s, channels[ch], pcm, pos, k)
      modifies channels
      ensures AtSample(Cfg(), numChannels, s, channels[ch], pcm, pos + 2 * numChannels, k + 2)
      ensures channels[1 - ch] == old(channels[1 - ch])
      ensures b == Packed(TrackOf(Cfg(), s.chan, s.samples).nibbles, k)
    {
      ghost var track := TrackOf(Cfg(), s.chan, s.samples);
      hide EncodeStep, TrackOf;
      var low: int := EncodeSample(ch, pcm, pos, count);
      b := low;
      assert Strided(pcm, pos + numChannels, numChannels, count - 1) == s.samples[k + 1..];
      var high: int := EncodeSample(ch, pcm, pos + numChannels, count - 1);
      b := b + 16 * high;
      assert low == track.nibbles[k] && high == track.nibbles[k + 1];
      assert pos + numChannels + numChannels == pos + 2 * numChannels;
    }

    /** The inner loop of the block encoder: eight samples of channel ch into four bytes at
        `o`, with `chunksLeft` chunks to follow. */
    method EncodeQuad(ch: nat, outbuf: array<Byte>, o: nat, pcm: seq<Sample>, pos: nat, chunksLeft: nat,
                      ghost s: Stream, ghost done: nat)
      requires Valid() && ch < numChannels && o + 4 <= outbuf.Length
      requires At(Cfg(), numChannels, s, channels[ch], pcm, pos, done + 1 + chunksLeft, done)
      modifies channels, outbuf
      ensures At(Cfg(), numChannels, s, channels[ch], pcm, pos + 8 * numChannels, done + 1 + chunksLeft, done + 1)
      ensures channels[1 - ch] == old(channels[1 - ch])
      ensures 8 * (done + 1) <= |s.samples|
      ensures outbuf[..o + 4] == old(outbuf[..o]) + Unit(TrackOf(Cfg(), s.chan, s.samples), done + 1)
      ensures outbuf[o + 4..] == old(outbuf[o + 4..])
    {
      ghost var track := TrackOf(Cfg(), s.chan, s.samples);
      hide AtSample, TrackOf, Unit, Packed;
      var p: nat := pos;
      for i := 0 to 4
        invariant p == pos + if numChannels == 1 then 2 * i else 4 * i
        invariant AtSample(Cfg(), numChannels, s, channels[ch], pcm, p, 8 * done + 2 * i)
        invariant channels[1 - ch] == old(channels[1 - ch])
        invariant outbuf[..o + i] == old(outbuf[..o]) + Unit(track, done + 1)[..i]
        invariant outbuf[o + 4..] == old(outbuf[o + 4..])
      {
        UnitByte(track, done, i);
        var b := EncodeByte(ch, pcm, p, chunksLeft * 8 + (3 - i) * 2 + 2, s, 8 * done + 2 * i);
        outbuf[o + i] := b;
        p := p + 2 * numChannels;
      }
    }

    /** One row of a block: a chunk of every channel in turn. */
    method EncodeRow(outbuf: array<Byte>, o: nat, pcm: seq<Sample>, pos: nat, chunksLeft: nat,
                     ghost streams: seq<Stream>, ghost done: nat) returns (size: nat)
      requires Valid() && |streams| == numChannels
      requires o == 4 * Lanes(1 + done, numChannels) && o + 4 * numChannels <= outbuf.Length
      requires forall ch :: 0 <= ch < numChannels ==>
                 At(Cfg(), numChannels, streams[ch], channels[ch], pcm, pos + ch, done + 1 + chunksLeft, done)
      requires outbuf[..o] == Rows(UnitsOf(TracksOf(Cfg(), streams)), numChannels, 1 + done)
      modifies channels, outbuf
      ensures size == 4 * Lanes(2 + done, numChannels) <= outbuf.Length
      ensures outbuf[..size] == Rows(UnitsOf(TracksOf(Cfg(), streams)), numChannels, 2 + done)
      ensures outbuf[size..] == old(outbuf[size..])
      ensures forall ch :: 0 <= ch < numChannels ==>
                At(Cfg(), numChannels, streams[ch], channels[ch], pcm, pos + 8 * numChannels + ch, done + 1 + chunksLeft, done + 1)
      ensures forall ch :: numChannels <= ch < 2 ==> channels[ch] == old(channels[ch])
    {
      ghost var units := UnitsOf(TracksOf(Cfg(), streams));
      hide At, TrackOf, TracksOf, UnitsOf, Unit;
      size := o;
      for ch := 0 to numChannels
        invariant size == o + 4 * ch
        invariant outbuf[..size] == Rows(units, numChannels, 1 + done) + Row(units, 1 + done, ch)
        invariant outbuf[size..] == old(outbuf[size..])
        invariant forall c :: 0 <= c < ch ==>
                    At(Cfg(), numChannels, streams[c], channels[c], pcm, pos + 8 * numChannels + c, done + 1 + chunksLeft, done + 1)
        invariant forall c :: ch <= c < 2 ==> channels[c] == old(channels[c])
      {
        UnitOfStream(Cfg(), numChannels, streams, channels[ch], pcm, pos + ch, done + 1 + chunksLeft, done, ch);
        SameTail(outbuf[..], old(outbuf[..]), size, size + 4);
        EncodeQuad(ch, outbuf, size, pcm, pos + ch, chunksLeft, streams[ch], done);
        Regroup(Rows(units, numChannels, 1 + done), Row(units, 1 + done, ch), units(ch, 1 + done));
        size := size + 4;
      }
    }

    /** Appends the chunks of a block to its headers, the first `o` bytes of the buffer. */
    method EncodeChunks(outbuf: array<Byte>, o: nat, pcm: seq<Sample>, inpos: nat, inbufcount: nat,
                        ghost streams: seq<Stream>) returns (size: nat)
      requires Valid() && |streams| == numChannels && inbufcount > 0
      requires o == 4 * Lanes(1, numChannels)
      requires 4 * Lanes(1 + (inbufcount - 1) / 8, numChannels) <= outbuf.Length
      requires o <= outbuf.Length
      requires forall ch :: 0 <= ch < numChannels ==>
                 At(Cfg(), numChannels, streams[ch], channels[ch], pcm, inpos + ch, (inbufcount - 1) / 8, 0)
      requires outbuf[..o] == Rows(UnitsOf(TracksOf(Cfg(), streams)), numChannels, 1)
      modifies channels, outbuf
      ensures SameLength(streams, (inbufcount - 1) / 8)
      ensures size == 4 * Lanes(1 + (inbufcount - 1) / 8, numChannels)
      ensures outbuf[..size] == EncodedBlock(Cfg(), streams, (inbufcount - 1) / 8)
      ensures outbuf[size..] == old(outbuf[size..])
      ensures forall ch :: 0 <= ch < numChannels ==>
                channels[ch] == StateAt(Cfg(), streams[ch].chan, streams[ch].samples, |streams[ch].samples|)
      ensures forall ch :: numChannels <= ch < 2 ==> channels[ch] == old(channels[ch])
    {
      hide At, UnitsOf, TracksOf, StateAt, Rows;
      var chunks: nat := (inbufcount - 1) / 8;
      ghost var total, done := chunks, 0;
      ghost var units := UnitsOf(TracksOf(Cfg(), streams));
      var pos: nat := inpos;
      size := o;
      while chunks > 0
        invariant done + chunks == total
        invariant size == 4 * Lanes(1 + done, numChannels) <= outbuf.Length
        invariant outbuf[..size] == Rows(units, numChannels, 1 + done)
        invariant outbuf[size..] == old(outbuf[size..])
        invariant forall ch :: 0 <= ch < numChannels ==>
                    At(Cfg(), numChannels, streams[ch], channels[ch], pcm, pos + ch, total, done)
        invariant forall ch :: numChannels <= ch < 2 ==> channels[ch] == old(channels[ch])
      {
        chunks := chunks - 1;
        LanesMonotone(2 + done, 1 + total, numChannels);
        LanesMonotone(1 + done, 2 + done, numChannels);
        SameTail(outbuf[..], old(outbuf[..]), size, 4 * Lanes(2 + done, numChannels));
        size := EncodeRow(outbuf, size, pcm, pos, chunks, streams, done);
        pos := pos + 8 * numChannels;
        done := done + 1;
      }
      forall ch | 0 <= ch < numChannels
        ensures |streams[ch].samples| == 8 * total
        ensures channels[ch] == StateAt(Cfg(), streams[ch].chan, streams[ch].samples, |streams[ch].samples|)
      {
        AtEnd(Cfg(), numChannels, streams[ch], channels[ch], pcm, pos + ch, total);
      }
    }

    // Restarts one channel and writes its header.
    method OpenChannel(outbuf: array<Byte>, o: nat, ch: nat, first: Sample)
      requires Valid() && ch < 2 && o + 4 <= outbuf.Length
      modifies channels, outbuf
      ensures channels[ch] == BlockStart(old(channels[ch]), first) && channels[1 - ch] == old(channels[1 - ch])
      ensures outbuf[..o + 4] == old(outbuf[..o]) + Header(channels[ch].pred)
      ensures outbuf[o + 4..] == old(outbuf[o + 4..])
    {
      hide Header;
      channels[ch] := BlockStart(channels[ch], first);
      WriteHeader(outbuf, o, channels[ch].pred);
    }

    /** The headers of a block; every channel's predictor restarts from its first sample. */
    method WriteHeaders(outbuf: array<Byte>, pcm: seq<Sample>, count: nat) returns (size: nat)
      requires Valid() && count > 0 && Lanes(ReadCount(count), numChannels) <= |pcm| && 4 * numChannels <= outbuf.Length
      modifies channels, outbuf
      ensures size == 4 * numChannels
      ensures var streams := StreamsOf(old(channels[..]), numChannels, pcm, count);
              && outbuf[..size] == Row(UnitsOf(TracksOf(Cfg(), streams)), 0, numChannels)
              && forall ch :: 0 <= ch < numChannels ==> channels[ch] == streams[ch].chan
      ensures outbuf[size..] == old(outbuf[size..])
      ensures forall ch :: numChannels <= ch < 2 ==> channels[ch] == old(channels[ch])
    {
      ghost var streams := StreamsOf(channels[..], numChannels, pcm, count);
      ghost var units := UnitsOf(TracksOf(Cfg(), streams));
      hide UnitsOf, TracksOf, StreamsOf, Lanes, Header, ReadCount, BlockStart, Row;
      RowGrows(units, 0, 0);
      size := 0;
      for ch := 0 to numChannels
        invariant size == 4 * ch
        invariant outbuf[..size] == Row(units, 0, ch)
        invariant outbuf[size..] == old(outbuf[size..])
        invariant forall c :: 0 <= c < ch ==> channels[c] == streams[c].chan
        invariant forall c :: ch <= c < 2 ==> channels[c] == old(channels[c])
      {
        StreamFits(pcm, numChannels, count, ch);
        StreamStart(Cfg(), old(channels[..]), numChannels, pcm, count, ch);
        RowGrows(units, 0, ch);
        OpenChannel(outbuf, size, ch, pcm[ch]);
        size := size + 4;
      }
    }

    /** Encodes `count` composite samples into one block and returns its size in bytes. Only the
        samples the block takes in are asked for, so no read, of the search's lookahead
        included, goes beyond them. */
    method EncodeBlock(outbuf: array<Byte>, pcm: seq<Sample>, count: nat) returns (size: nat)
      requires Valid() && Lanes(ReadCount(count), numChannels) <= |pcm| && BlockSize(numChannels, count) <= outbuf.Length
      modifies channels, outbuf
      ensures size == BlockSize(numChannels, count)
      ensures outbuf[size..] == old(outbuf[size..])
      ensures count == 0 ==> channels[..] == old(channels[..])
      ensures count > 0 ==> Encoded(old(channels[..]), channels[..], pcm, count, outbuf[..size])
      ensures forall ch :: numChannels <= ch < 2 ==> channels[ch] == old(channels[ch])
    {
      hide Lanes, Encoded;
      size := 0;
      if count == 0 {
        return;
      }
      BlockSizeInLanes(numChannels, count);
      size := EncodeSamples(outbuf, pcm, count);
    }

    /** The bytes are the encoding of the channels' streams, and every channel is left where
        its own trace ends. */
    ghost predicate Encoded(before: seq<Channel>, after: seq<Channel>, pcm: seq<Sample>, count: nat, bytes: seq<Byte>)
      requires Valid() && |before| == |after| == 2 && count > 0 && Lanes(ReadCount(count), numChannels) <= |pcm|
    {
      var streams := StreamsOf(before, numChannels, pcm, count);
      && bytes == EncodedBlock(Cfg(), streams, (count - 1) / 8)
      && forall ch :: 0 <= ch < numChannels ==>
           after[ch] == StateAt(Cfg(), streams[ch].chan, streams[ch].samples, |streams[ch].samples|)
    }

    method EncodeSamples(outbuf: array<Byte>, pcm: seq<Sample>, count: nat) returns (size: nat)
      requires Valid() && count > 0 && Lanes(ReadCount(count), numChannels) <= |pcm|
      requires 4 * Lanes(1 + (count - 1) / 8, numChannels) <= outbuf.Length
      modifies channels, outbuf
      ensures size == 4 * Lanes(1 + (count - 1) / 8, numChannels)
      ensures outbuf[size..] == old(outbuf[size..])
      ensures Encoded(old(channels[..]), channels[..], pcm, count, outbuf[..size])
      ensures forall ch :: numChannels <= ch < 2 ==> channels[ch] == old(channels[ch])
    {
      ghost var before := channels[..];
      ghost var streams := StreamsOf(before, numChannels, pcm, count);
      hide StateAt, UnitsOf, TracksOf, StreamsOf, At, Rows, Lanes, SameLength, EncodedBlock, Encoded;
      LanesMonotone(1, (count - 1) / 8 + 1, numChannels);
      ghost var was := outbuf[..];
      size := StartBlock(outbuf, pcm, count);
      SameTail(outbuf[..], was, size, 4 * Lanes(1 + (count - 1) / 8, numChannels));
      size := EncodeChunks(outbuf, size, pcm, numChannels, count, streams);
      IsEncoded(before, channels[..], pcm, count, outbuf[..size]);
    }

    // Writes the headers and leaves every channel at the start of its stream.
    method StartBlock(outbuf: array<Byte>, pcm: seq<Sample>, count: nat) returns (size: nat)
      requires Valid() && count > 0 && Lanes(ReadCount(count), numChannels) <= |pcm|
      requires 4 * Lanes(1, numChannels) <= outbuf.Length
      modifies channels, outbuf
      ensures size == 4 * Lanes(1, numChannels)
      ensures var streams := StreamsOf(old(channels[..]), numChannels, pcm, count);
              && outbuf[..size] == Rows(UnitsOf(TracksOf(Cfg(), streams)), numChannels, 1)
              && forall ch :: 0 <= ch < numChannels ==>
                   At(Cfg(), numChannels, streams[ch], channels[ch], pcm, numChannels + ch, (count - 1) / 8, 0)
      ensures outbuf[size..] == old(outbuf[size..])
      ensures forall ch :: numChannels <= ch < 2 ==> channels[ch] == old(channels[ch])
    {
      ghost var before := channels[..];
      ghost var streams := StreamsOf(before, numChannels, pcm, count);
      hide UnitsOf, TracksOf, StreamsOf, At, Row, Rows, Lanes;
      OneRow(numChannels);
      size := WriteHeaders(outbuf, pcm, count);
      FirstRow(UnitsOf(TracksOf(Cfg(), streams)), numChannels);
      forall ch | 0 <= ch < numChannels
        ensures At(Cfg(), numChannels, streams[ch], channels[ch], pcm, numChannels + ch, (count - 1) / 8, 0)
      {
        AtStart(Cfg(), before, numChannels, pcm, count, ch);
      }
    }

    lemma IsEncoded(before: seq<Channel>, after: seq<Channel>, pcm: seq<Sample>, count: nat, bytes: seq<Byte>)
      requires Valid() && |before| == |after| == 2 && count > 0 && Lanes(ReadCount(count), numChannels) <= |pcm|
      requires var streams := StreamsOf(before, numChannels, pcm, count);
               && bytes == EncodedBlock(Cfg(), streams, (count - 1) / 8)
               && forall ch :: 0 <= ch < numChannels ==>
                    after[ch] == StateAt(Cfg(), streams[ch].chan, streams[ch].samples, |streams[ch].samples|)
      ensures Encoded(before, after, pcm, count, bytes)
    {
    }
  }

  lemma StridedFirst(pcm: seq<Sample>, pos: nat, channels: nat, count: nat)
    requires InReach(pcm, pos, channels, count) && count > 0
    ensures Strided(pcm, pos, channels, count)[0] == pcm[pos]
  {
  }

  lemma EncodeStepParts(cfg: Config, c: Channel, samples: seq<Sample>, target: int, shaped: Channel, nibble: Nibble)
    requires samples != [] && (target, shaped) == Shape(cfg.shaping, c, samples[0])
    requires nibble == Choice(cfg.q, c.pred, SearchWindow(cfg, target, samples))
    ensures EncodeStep(cfg, c, samples) == (nibble, Settle(cfg, shaped, nibble))
  {
  }

  lemma BlockSizeInLanes(channels: nat, count: nat)
    requires channels > 0 && count > 0
    ensures BlockSize(channels, count) == 4 * Lanes(1 + (count - 1) / 8, channels)
  {
    SizeOf((count - 1) / 8, channels);
  }

  lemma SameTail(a: seq<Byte>, b: seq<Byte>, i: nat, j: nat)
    requires i <= j <= |a| == |b| && a[i..] == b[i..]
    ensures a[j..] == b[j..]
  {
  }

  lemma OneRow(channels: nat)
    ensures Lanes(1, channels) == channels
  {
  }

  lemma UnitOfStream(cfg: Config, channels: nat, streams: seq<Stream>, state: Channel, pcm: seq<Sample>, pos: nat,
                     total: nat, done: nat, ch: nat)
    requires ch < |streams| && done < total
    requires At(cfg, channels, streams[ch], state, pcm, pos, total, done)
    ensures 8 * (done + 1) <= |streams[ch].samples|
    ensures UnitsOf(TracksOf(cfg, streams))(ch, 1 + done)
         == Unit(TrackOf(cfg, streams[ch].chan, streams[ch].samples), done + 1)
  {
  }

  lemma AtEnd(cfg: Config, channels: nat, s: Stream, state: Channel, pcm: seq<Sample>, pos: nat, total: nat)
    requires At(cfg, channels, s, state, pcm, pos, total, total)
    ensures |s.samples| == 8 * total
    ensures state == StateAt(cfg, s.chan, s.samples, |s.samples|)
  {
  }

  lemma StreamStart(cfg: Config, before: seq<Channel>, channels: nat, pcm: seq<Sample>, count: nat, ch: nat)
    requires ch < channels <= |before| && count > 0 && Lanes(ReadCount(count), channels) <= |pcm|
    ensures ch < |pcm|
    ensures StreamsOf(before, channels, pcm, count)[ch].chan == BlockStart(before[ch], pcm[ch])
    ensures UnitsOf(TracksOf(cfg, StreamsOf(before, channels, pcm, count)))(ch, 0)
         == Header(BlockStart(before[ch], pcm[ch]).pred)
  {
  }

  lemma AtStart(cfg: Config, before: seq<Channel>, channels: nat, pcm: seq<Sample>, count: nat, ch: nat)
    requires ch < channels <= |before| && count > 0 && Lanes(ReadCount(count), channels) <= |pcm|
    ensures var s := StreamsOf(before, channels, pcm, count)[ch];
            At(cfg, channels, s, s.chan, pcm, channels + ch, (count - 1) / 8, 0)
  {
    StreamFits(pcm, channels, count, ch);
  }

  lemma RowGrows(u: Source, r: nat, m: nat)
    ensures Row(u, r, 0) == [] && Row(u, r, m + 1) == Row(u, r, m) + u(m, r)
  {
  }

  lemma FirstRow(u: Source, channels: nat)
    ensures Rows(u, channels, 1) == Row(u, 0, channels)
  {
  }

  lemma Regroup(a: seq<Byte>, b: seq<Byte>, c: seq<Byte>)
    ensures (a + b) + c == a + (b + c)
  {
  }

  // The window of a search is a prefix of the channel's remaining samples.
  lemma {:induction false} StridedPrefix(pcm: seq<Sample>, pos: nat, channels: nat, count: nat, depth: nat)
    requires InReach(pcm, pos, channels, count) && depth < count
    ensures InReach(pcm, pos + channels, channels, depth)
    ensures Strided(pcm, pos + channels, channels, depth) == Strided(pcm, pos, channels, count)[1..1 + depth]
    decreases depth
  {
    if depth > 0 {
      StridedPrefix(pcm, pos + channels, channels, count - 1, depth - 1);
    }
  }

  lemma {:induction false} LanesMonotone(a: nat, b: nat, channels: nat)
    requires a <= b
    ensures Lanes(a, channels) <= Lanes(b, channels)
  {
    if a < b {
      LanesMonotone(a, b - 1, channels);
    }
  }
}
