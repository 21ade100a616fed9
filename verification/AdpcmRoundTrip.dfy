/**
 The encoder and the decoder together: what a block encoded by a context decodes to, which
 samples it depends on, and how a stereo context relates to two mono ones.
 */
module AdpcmRoundTrip {
  import opened AdpcmPredictor
  import opened AdpcmSearch
  import opened AdpcmLayout
  import opened AdpcmTrace
  import opened AdpcmStereo
  import opened AdpcmCodec
  import opened AdpcmDecoder

  /** Whatever state the context is in, a block it encodes is accepted, all of it is consumed,
      and the decoded output is the first sample of every channel followed by exactly the
      values its encoder went through, up to the one the context is left with. */
  lemma DecodesToEncoderTrace(c: Context, before: seq<Channel>, after: seq<Channel>, pcm: seq<Sample>, count: nat,
                              bytes: seq<Byte>, out: seq<Sample>, untouched: seq<Sample>)
    requires c.Valid() && |before| == |after| == 2 && count > 0 && Lanes(ReadCount(count), c.numChannels) <= |pcm|
    requires c.Encoded(before, after, pcm, count, bytes)
    ensures |bytes| == BlockSize(c.numChannels, count)
    ensures Accepted(bytes, c.numChannels) && ChunkCount(|bytes|, c.numChannels) == (count - 1) / 8
    ensures DecodedAll(out, untouched, bytes, c.numChannels, 8 * ((count - 1) / 8)) ==>
              forall ch :: 0 <= ch < c.numChannels ==> Follows(c, before, after, pcm, count, out, ch)
  {
    hide Lanes, EncodedBlock, StateAt, DecodedAt, StreamsOf, Decoded, Follows, ReadTrack, BlockSize, ChunkCount, HeaderAccepted;
    EncodedAccepted(c, before, after, pcm, count, bytes);
    if DecodedAll(out, untouched, bytes, c.numChannels, 8 * ((count - 1) / 8)) {
      forall ch: nat | ch < c.numChannels
        ensures Follows(c, before, after, pcm, count, out, ch)
      {
        assert Decoded(out, c.numChannels, ch, ReadTrack(bytes, c.numChannels, ch), 8 * ((count - 1) / 8));
        ChannelFollows(c, before, after, pcm, count, bytes, out, ch);
      }
    }
  }

  lemma EncodedAccepted(c: Context, before: seq<Channel>, after: seq<Channel>, pcm: seq<Sample>, count: nat, bytes: seq<Byte>)
    requires c.Valid() && |before| == |after| == 2 && count > 0 && Lanes(ReadCount(count), c.numChannels) <= |pcm|
    requires c.Encoded(before, after, pcm, count, bytes)
    ensures |bytes| == BlockSize(c.numChannels, count)
    ensures Accepted(bytes, c.numChannels) && ChunkCount(|bytes|, c.numChannels) == (count - 1) / 8
  {
    hide Lanes, EncodedBlock, Block, StateAt, StreamsOf;
    var n, chunks := c.numChannels, (count - 1) / 8;
    var tracks := TracksOf(c.Cfg(), StreamsOf(before, n, pcm, count));
    BlockAccepted(tracks, chunks);
    AsBlock(c.Cfg(), StreamsOf(before, n, pcm, count), chunks);
    assert bytes == Block(tracks, chunks) && |tracks| == n;
  }

  lemma ChannelFollows(c: Context, before: seq<Channel>, after: seq<Channel>, pcm: seq<Sample>, count: nat,
                       bytes: seq<Byte>, out: seq<Sample>, ch: nat)
    requires c.Valid() && |before| == |after| == 2 && count > 0 && Lanes(ReadCount(count), c.numChannels) <= |pcm|
    requires c.Encoded(before, after, pcm, count, bytes) && ch < c.numChannels
    requires Accepted(bytes, c.numChannels) && ChunkCount(|bytes|, c.numChannels) == (count - 1) / 8
    requires Decoded(out, c.numChannels, ch, ReadTrack(bytes, c.numChannels, ch), 8 * ((count - 1) / 8))
    ensures Follows(c, before, after, pcm, count, out, ch)
  {
    hide Lanes, EncodedBlock, StateAt, DecodedAt, Slot, StreamsOf, ReadTrack, HeaderAccepted, ChunkCount;
    var n, chunks := c.numChannels, (count - 1) / 8;
    var streams := StreamsOf(before, n, pcm, count);
    StreamStart(c.Cfg(), before, n, pcm, count, ch);
    forall k: nat | k <= 8 * chunks
      ensures Slot(n, k, ch) < |out|
      ensures out[Slot(n, k, ch)] == StateAt(c.Cfg(), streams[ch].chan, streams[ch].samples, k).pred.pcm
    {
      BlockLockstep(c.Cfg(), streams, chunks, ch, k);
    }
    FirstState(c.Cfg(), streams[ch]);
    FirstSlot(n, ch);
  }

  /** The decoded output of channel ch: its first sample, the encoder's own values, and in the
      end the value the channel is left with. */
  ghost predicate Follows(c: Context, before: seq<Channel>, after: seq<Channel>, pcm: seq<Sample>, count: nat,
                          out: seq<Sample>, ch: nat)
    requires c.Valid() && |before| == |after| == 2 && count > 0 && Lanes(ReadCount(count), c.numChannels) <= |pcm|
    requires ch < c.numChannels
  {
    var n, last := c.numChannels, 8 * ((count - 1) / 8);
    var s := StreamsOf(before, n, pcm, count)[ch];
    && ch < |pcm| && ch < |out| && out[ch] == pcm[ch]
    && (forall k: nat :: k <= last ==>
          Slot(n, k, ch) < |out| && out[Slot(n, k, ch)] == StateAt(c.Cfg(), s.chan, s.samples, k).pred.pcm)
    && Slot(n, last, ch) < |out| && out[Slot(n, last, ch)] == after[ch].pred.pcm
  }

  /** A block encoded into one buffer and decoded from there into another: with no condition on
      the samples, the state of the context or what the search chooses. */
  method EncodeAndDecode(c: Context, pcm: seq<Sample>, count: nat, block: array<Byte>, out: array<Sample>)
    returns (samples: nat)
    requires c.Valid() && count > 0 && Lanes(ReadCount(count), c.numChannels) <= |pcm|
    requires BlockSize(c.numChannels, count) <= block.Length && c.numChannels * ReadCount(count) <= out.Length
    modifies c.channels, block, out
    ensures samples == ReadCount(count)
    ensures forall ch :: 0 <= ch < c.numChannels ==>
              Follows(c, old(c.channels[..]), c.channels[..], pcm, count, out[..], ch)
    ensures forall j :: c.numChannels * samples <= j < out.Length ==> out[j] == old(out[j])
  {
    hide Lanes, EncodedBlock, StateAt, DecodedAll, StreamsOf, Follows, BlockSize, OnceEach;
    ghost var before := c.channels[..];
    var size := c.EncodeBlock(block, pcm, count);
    EncodedAccepted(c, before, c.channels[..], pcm, count, block[..size]);
    ghost var untouched := out[..];
    ghost var stored;
    samples, stored := DecodeBlock(out, block[..size], c.numChannels);
    DecodesToEncoderTrace(c, before, c.channels[..], pcm, count, block[..size], out[..], untouched);
    Untouched(out[..], untouched, block[..size], c.numChannels, samples - 1);
  }

  lemma Untouched(out: seq<Sample>, before: seq<Sample>, inbuf: seq<Byte>, channels: nat, n: nat)
    requires 1 <= channels <= 2 && Accepted(inbuf, channels) && n <= 8 * ChunkCount(|inbuf|, channels)
    requires DecodedAll(out, before, inbuf, channels, n)
    ensures |out| == |before| && forall j :: channels * (n + 1) <= j < |out| ==> out[j] == before[j]
  {
    hide Decoded, ReadTrack;
  }

  lemma AsBlock(cfg: Config, streams: seq<Stream>, chunks: nat)
    requires SameLength(streams, chunks)
    ensures EncodedBlock(cfg, streams, chunks) == Block(TracksOf(cfg, streams), chunks)
  {
  }

  lemma FirstState(cfg: Config, s: Stream)
    ensures StateAt(cfg, s.chan, s.samples, 0) == s.chan
  {
  }

  lemma FirstSlot(channels: nat, ch: nat)
    ensures Slot(channels, 0, ch) == ch
  {
  }

  // ----- which samples a block depends on -----

  lemma {:induction false} StridedAt(pcm: seq<Sample>, pos: nat, channels: nat, count: nat, k: nat)
    requires InReach(pcm, pos, channels, count) && k < count
    ensures pos + Lanes(k, channels) < |pcm|
    ensures Strided(pcm, pos, channels, count)[k] == pcm[pos + Lanes(k, channels)]
    decreases k
  {
    if k > 0 {
      StridedAt(pcm, pos + channels, channels, count - 1, k - 1);
    }
  }

  /** A block depends on its input only up to composite sample 8 * ((count - 1) / 8): no
      lookahead reads beyond it, and what follows is not encoded. */
  lemma UnreadTail(before: seq<Channel>, channels: nat, pcm: seq<Sample>, pcm': seq<Sample>, count: nat)
    requires 0 < channels <= |before| && count > 0
    requires var read := Lanes(ReadCount(count), channels);
             read <= |pcm| && read <= |pcm'| && pcm[..read] == pcm'[..read]
    ensures StreamsOf(before, channels, pcm, count) == StreamsOf(before, channels, pcm', count)
  {
    hide Strided;
    var n := 8 * ((count - 1) / 8);
    var read := Lanes(1 + n, channels);
    LanesMonotone(1, 1 + n, channels);
    forall ch: nat | ch < channels
      ensures StreamsOf(before, channels, pcm, count)[ch] == StreamsOf(before, channels, pcm', count)[ch]
    {
      StreamFits(pcm, channels, count, ch);
      StreamFits(pcm', channels, count, ch);
      assert pcm[..read][ch] == pcm'[..read][ch];
      var s, s' := Strided(pcm, channels + ch, channels, n), Strided(pcm', channels + ch, channels, n);
      forall k: nat | k < n
        ensures s[k] == s'[k]
      {
        StridedAt(pcm, channels + ch, channels, n, k);
        StridedAt(pcm', channels + ch, channels, n, k);
        LanesMonotone(k + 2, 1 + n, channels);
        var i := channels + ch + Lanes(k, channels);
        assert pcm[..read][i] == pcm'[..read][i];
      }
    }
  }

  // ----- a run of blocks -----

  /** A call of the block encoder takes a channel one block further in its run: what is proved of
      a channel after any blocks holds of a context after any calls. */
  lemma BlockJoinsRun(c: Context, before: seq<Channel>, after: seq<Channel>, pcm: seq<Sample>, count: nat,
                      bytes: seq<Byte>, ch: nat, start: Channel, blocks: seq<seq<Sample>>)
    requires c.Valid() && |before| == |after| == 2 && count > 0 && Lanes(ReadCount(count), c.numChannels) <= |pcm|
    requires c.Encoded(before, after, pcm, count, bytes) && ch < c.numChannels
    requires before[ch] == AfterBlocks(c.Cfg(), start, blocks)
    ensures ch < |pcm|
    ensures var s := StreamsOf(before, c.numChannels, pcm, count)[ch];
            after[ch] == AfterBlocks(c.Cfg(), start, blocks + [[pcm[ch]] + s.samples])
  {
    hide StateAt, Strided, EncodedBlock;
    StreamFits(pcm, c.numChannels, count, ch);
    var b := [pcm[ch]] + StreamsOf(before, c.numChannels, pcm, count)[ch].samples;
    assert (blocks + [b])[..|blocks|] == blocks;
    assert b[1..] == StreamsOf(before, c.numChannels, pcm, count)[ch].samples;
  }

  // ----- stereo contexts and mono contexts -----

  // One channel of `count` composite samples.
  function ChannelOf(pcm: seq<Sample>, channels: nat, ch: nat, count: nat): (mono: seq<Sample>)
    requires ch < channels && Lanes(count, channels) <= |pcm|
    ensures |mono| == count == Lanes(count, 1)
  {
    OneLane(count);
    InReachWithin(pcm, channels, 0, count, ch);
    Strided(pcm, ch, channels, count)
  }

  // A channel's stream is the stream of that channel's samples on their own.
  lemma StreamByChannel(before: seq<Channel>, alone: seq<Channel>, channels: nat, pcm: seq<Sample>, count: nat, ch: nat)
    requires ch < channels <= |before| && count > 0 && Lanes(ReadCount(count), channels) <= |pcm|
    requires alone != [] && alone[0] == before[ch]
    ensures StreamsOf(alone, 1, ChannelOf(pcm, channels, ch, ReadCount(count)), count)[0]
         == StreamsOf(before, channels, pcm, count)[ch]
  {
    hide Strided;
    var n, mono := 8 * ((count - 1) / 8), ChannelOf(pcm, channels, ch, ReadCount(count));
    OneLane(ReadCount(count));
    InReachWithin(pcm, channels, 0, ReadCount(count), ch);
    StreamFits(pcm, channels, count, ch);
    StreamFits(mono, 1, count, 0);
    StridedAt(pcm, ch, channels, ReadCount(count), 0);
    var s, s' := Strided(pcm, channels + ch, channels, n), Strided(mono, 1, 1, n);
    forall k: nat | k < n
      ensures s[k] == s'[k]
    {
      StridedAt(pcm, channels + ch, channels, n, k);
      StridedAt(mono, 1, 1, n, k);
      OneLane(k);
      StridedAt(pcm, ch, channels, ReadCount(count), k + 1);
    }
  }

  /** A channel of a block is what a one-channel context in the same state makes of that
      channel's samples, and leaves the channel in the same state. */
  lemma StereoIsTwoMonos(c: Context, mono: Context, before: seq<Channel>, after: seq<Channel>, before': seq<Channel>,
                         after': seq<Channel>, pcm: seq<Sample>, count: nat, bytes: seq<Byte>, bytes': seq<Byte>, ch: nat)
    requires c.Valid() && mono.Valid() && mono.numChannels == 1 && ch < c.numChannels
    requires mono.lookahead == c.lookahead && mono.shaping == c.shaping
    requires |before| == |after| == |before'| == |after'| == 2 && before'[0] == before[ch]
    requires count > 0 && Lanes(ReadCount(count), c.numChannels) <= |pcm|
    requires c.Encoded(before, after, pcm, count, bytes)
    requires mono.Encoded(before', after', ChannelOf(pcm, c.numChannels, ch, ReadCount(count)), count, bytes')
    ensures 4 * c.numChannels <= |bytes| && Deinterleave(bytes, c.numChannels, ch) == bytes'
    ensures after'[0] == after[ch]
  {
    hide Lanes, EncodedBlock, StateAt, StreamsOf, ChannelOf, Deinterleave;
    var streams := StreamsOf(before, c.numChannels, pcm, count);
    var alone := StreamsOf(before', 1, ChannelOf(pcm, c.numChannels, ch, ReadCount(count)), count);
    StreamByChannel(before, before', c.numChannels, pcm, count, ch);
    assert alone == [streams[ch]];
    EncodeByChannel(c.Cfg(), streams, (count - 1) / 8, ch);
  }
}
