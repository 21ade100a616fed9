/**
 A block with several channels is exactly its channels' one-channel blocks, interleaved
 four bytes at a time; both coding and decoding commute with taking a block apart.
 */
module AdpcmStereo {
  import opened AdpcmPredictor
  import opened AdpcmSearch
  import opened AdpcmLayout
  import opened AdpcmTrace

  // The bytes of one channel of a block.
  function Deinterleave(block: seq<Byte>, channels: nat, ch: nat): (mono: seq<Byte>)
    requires ch < channels && 4 * channels <= |block|
    ensures |mono| == 4 * (1 + ChunkCount(|block|, channels))
  {
    seq(4 * (1 + ChunkCount(|block|, channels)),
        j requires 0 <= j < 4 * (1 + ChunkCount(|block|, channels)) =>
          UnitsFit(|block|, channels, ch, j / 4);
          block[UnitAt(channels, ch, j / 4) + j % 4])
  }

  // The four-byte units of some one-channel blocks.
  ghost function Lanewise(monos: seq<seq<Byte>>): Source
  {
    (ch: nat, r: nat) =>
      if ch < |monos| && 4 * r + 4 <= |monos[ch]| then monos[ch][4 * r..4 * r + 4] else [0, 0, 0, 0]
  }

  // One-channel blocks of `rows` rows, side by side.
  ghost function Interleave(monos: seq<seq<Byte>>, rows: nat): seq<Byte>
  {
    Rows(Lanewise(monos), |monos|, rows)
  }

  lemma {:induction false} OneLane(rows: nat)
    ensures Lanes(rows, 1) == rows
  {
    LanesProduct(rows, 1);
  }

  // Row r of a one-channel block starts at byte 4 * r.
  lemma MonoUnitAt(r: nat)
    ensures UnitAt(1, 0, r) == 4 * r
  {
    OneLane(r);
  }

  lemma DeinterleavedByte(block: seq<Byte>, channels: nat, ch: nat, r: nat, i: nat)
    requires ch < channels && 4 * channels <= |block|
    requires r <= ChunkCount(|block|, channels) && i < 4
    ensures HasUnit(block, channels, ch, r)
    ensures Deinterleave(block, channels, ch)[4 * r + i] == block[UnitAt(channels, ch, r) + i]
  {
    UnitsFit(|block|, channels, ch, r);
    var j := 4 * r + i;
    assert j / 4 == r && j % 4 == i;
  }

  lemma DeinterleavedChunks(block: seq<Byte>, channels: nat, ch: nat)
    requires ch < channels && 4 * channels <= |block|
    ensures ChunkCount(|Deinterleave(block, channels, ch)|, 1) == ChunkCount(|block|, channels)
  {
  }

  /** Decoding channel ch of a block is decoding that channel's bytes on their own. */
  lemma DecodeByChannel(q: Quantizer, block: seq<Byte>, channels: nat, ch: nat, k: nat)
    requires ch < channels && Accepted(block, channels)
    requires k <= 8 * ChunkCount(|block|, channels)
    ensures Accepted(Deinterleave(block, channels, ch), 1)
    ensures ChunkCount(|Deinterleave(block, channels, ch)|, 1) == ChunkCount(|block|, channels)
    ensures DecodedSample(q, block, channels, ch, k)
         == DecodedSample(q, Deinterleave(block, channels, ch), 1, 0, k)
  {
    var mono := Deinterleave(block, channels, ch);
    DeinterleavedChunks(block, channels, ch);
    assert HeaderAccepted(block, channels, ch);
    HeaderUnit(channels, ch);
    DeinterleavedByte(block, channels, ch, 0, 0);
    DeinterleavedByte(block, channels, ch, 0, 1);
    DeinterleavedByte(block, channels, ch, 0, 2);
    DeinterleavedByte(block, channels, ch, 0, 3);
    forall j | 0 <= j < 8 * ChunkCount(|block|, channels)
      ensures ReadTrack(mono, 1, 0).nibbles[j] == ReadTrack(block, channels, ch).nibbles[j]
    {
      DeinterleavedByte(block, channels, ch, j / 8 + 1, j % 8 / 2);
      MonoUnitAt(j / 8 + 1);
    }
    assert ReadTrack(mono, 1, 0) == ReadTrack(block, channels, ch);
  }

  lemma HeaderUnit(channels: nat, ch: nat)
    ensures UnitAt(channels, ch, 0) == 4 * ch
  {
  }

  // Rows depend only on the units they are made of.
  lemma {:induction false} SameRow(u: Source, v: Source, r: nat, m: nat)
    requires forall ch: nat :: ch < m ==> u(ch, r) == v(ch, r)
    ensures Row(u, r, m) == Row(v, r, m)
  {
    if m > 0 {
      SameRow(u, v, r, m - 1);
    }
  }

  lemma {:induction false} SameRows(u: Source, v: Source, channels: nat, rows: nat)
    requires forall ch: nat, r: nat :: ch < channels && r < rows ==> u(ch, r) == v(ch, r)
    ensures Rows(u, channels, rows) == Rows(v, channels, rows)
  {
    if rows > 0 {
      SameRows(u, v, channels, rows - 1);
      SameRow(u, v, rows - 1, channels);
    }
  }

  ghost function MonoBlocks(cfg: Config, streams: seq<Stream>, chunks: nat): (monos: seq<seq<Byte>>)
    requires SameLength(streams, chunks)
    ensures |monos| == |streams|
    ensures forall ch :: 0 <= ch < |streams| ==> monos[ch] == EncodedBlock(cfg, [streams[ch]], chunks)
  {
    seq(|streams|, ch requires 0 <= ch < |streams| => EncodedBlock(cfg, [streams[ch]], chunks))
  }

  // Four bytes of a one-channel block are that channel's unit.
  lemma MonoUnit(t: Track, chunks: nat, r: nat)
    requires |t.nibbles| == 8 * chunks && r <= chunks
    ensures |Block([t], chunks)| == 4 * (chunks + 1)
    ensures Block([t], chunks)[4 * r..4 * r + 4] == Unit(t, r)
  {
    OneLane(chunks + 1);
    MonoUnitAt(r);
    forall i: nat | i < 4
      ensures Block([t], chunks)[4 * r + i] == Unit(t, r)[i]
    {
      TrackByte([t], chunks, 0, r, i);
    }
  }

  lemma TakeApart(tracks: seq<Track>, chunks: nat, ch: nat)
    requires Rectangular(tracks, chunks) && ch < |tracks|
    ensures 4 * |tracks| <= |Block(tracks, chunks)|
    ensures Deinterleave(Block(tracks, chunks), |tracks|, ch) == Block([tracks[ch]], chunks)
  {
    hide UnitAt, Unit;
    var one := [tracks[ch]];
    BlockAccepted(tracks, chunks);
    BlockAccepted(one, chunks);
    var mono := Deinterleave(Block(tracks, chunks), |tracks|, ch);
    forall j | 0 <= j < 4 * (1 + chunks)
      ensures mono[j] == Block(one, chunks)[j]
    {
      DeinterleavedByte(Block(tracks, chunks), |tracks|, ch, j / 4, j % 4);
      TrackByte(tracks, chunks, ch, j / 4, j % 4);
      TrackByte(one, chunks, 0, j / 4, j % 4);
      MonoUnitAt(j / 4);
    }
  }

  lemma PutTogether(tracks: seq<Track>, chunks: nat, monos: seq<seq<Byte>>)
    requires Rectangular(tracks, chunks) && |monos| == |tracks|
    requires forall ch :: 0 <= ch < |tracks| ==> monos[ch] == Block([tracks[ch]], chunks)
    ensures Block(tracks, chunks) == Interleave(monos, chunks + 1)
  {
    hide Unit, Block;
    var u, v := UnitsOf(tracks), Lanewise(monos);
    forall ch: nat, r: nat | ch < |tracks| && r < chunks + 1
      ensures u(ch, r) == v(ch, r)
    {
      MonoUnit(tracks[ch], chunks, r);
    }
    SameRows(u, v, |tracks|, chunks + 1);
    BlockRows(tracks, chunks);
  }

  lemma BlockRows(tracks: seq<Track>, chunks: nat)
    requires Rectangular(tracks, chunks)
    ensures Block(tracks, chunks) == Rows(UnitsOf(tracks), |tracks|, chunks + 1)
  {
  }

  lemma OneTrack(cfg: Config, s: Stream)
    ensures TracksOf(cfg, [s]) == [TrackOf(cfg, s.chan, s.samples)]
  {
  }

  /** Taking an encoded block apart gives each channel's own encoding. */
  lemma EncodeByChannel(cfg: Config, streams: seq<Stream>, chunks: nat, ch: nat)
    requires SameLength(streams, chunks) && ch < |streams|
    ensures 4 * |streams| <= |EncodedBlock(cfg, streams, chunks)|
    ensures Deinterleave(EncodedBlock(cfg, streams, chunks), |streams|, ch)
         == EncodedBlock(cfg, [streams[ch]], chunks)
  {
    OneTrack(cfg, streams[ch]);
    TakeApart(TracksOf(cfg, streams), chunks, ch);
  }

  /** Encoding several channels is encoding each on its own and interleaving the results. */
  lemma EncodeIsInterleaved(cfg: Config, streams: seq<Stream>, chunks: nat)
    requires SameLength(streams, chunks)
    ensures EncodedBlock(cfg, streams, chunks) == Interleave(MonoBlocks(cfg, streams, chunks), chunks + 1)
  {
    hide Block;
    var tracks := TracksOf(cfg, streams);
    forall ch | 0 <= ch < |streams|
      ensures MonoBlocks(cfg, streams, chunks)[ch] == Block([tracks[ch]], chunks)
    {
      OneTrack(cfg, streams[ch]);
    }
    PutTogether(tracks, chunks, MonoBlocks(cfg, streams, chunks));
  }
}
