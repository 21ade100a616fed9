/**
 The block format: per channel a header and packed nibbles, in rows of four bytes that
 are interleaved channel by channel. Nothing here depends on how nibbles are chosen.
 */
module AdpcmLayout {
  import opened AdpcmPredictor

  type Byte = b: int | 0 <= b < 256

  /** One channel of a block: the predictor its header records and its nibbles. */
  datatype Track = Track(header: Predictor, nibbles: seq<Nibble>)

  ghost predicate Rectangular(tracks: seq<Track>, chunks: nat)
  {
    forall ch :: 0 <= ch < |tracks| ==> |tracks[ch].nibbles| == 8 * chunks
  }

  // The number of units in the given number of rows: rows * channels.
  function Lanes(rows: nat, channels: nat): nat
  {
    if rows == 0 then 0 else Lanes(rows - 1, channels) + channels
  }

  lemma {:induction false} LanesProduct(rows: nat, channels: nat)
    ensures Lanes(rows, channels) == rows * channels
  {
    if rows > 0 {
      LanesProduct(rows - 1, channels);
    }
  }

  // ----- writing -----

  // The four header bytes of a channel.
  function Header(p: Predictor): (h: seq<Byte>)
    ensures |h| == 4
  {
    [p.pcm % 256, p.pcm / 256 % 256, p.index, 0]
  }

  // Two nibbles in a byte, low nibble first.
  function Packed(nibbles: seq<Nibble>, k: nat): Byte
    requires k + 1 < |nibbles|
  {
    var low: int, high: int := nibbles[k], nibbles[k + 1];
    low + 16 * high
  }

  type Quad = u: seq<Byte> | |u| == 4 witness [0, 0, 0, 0]

  // Row r of a channel: the header, then four bytes for every eight nibbles.
  function Unit(t: Track, r: nat): Quad
    requires 8 * r <= |t.nibbles|
  {
    if r == 0 then Header(t.header)
    else
      var k := 8 * (r - 1);
      [Packed(t.nibbles, k), Packed(t.nibbles, k + 2), Packed(t.nibbles, k + 4), Packed(t.nibbles, k + 6)]
  }

  // Where the rows of a block come from: the unit of a channel in a row.
  type Source = (nat, nat) -> Quad

  ghost function UnitsOf(tracks: seq<Track>): Source
  {
    (ch: nat, r: nat) =>
      if ch < |tracks| && 8 * r <= |tracks[ch].nibbles| then Unit(tracks[ch], r) else [0, 0, 0, 0]
  }

  // Row r of the first m channels, side by side.
  ghost function Row(u: Source, r: nat, m: nat): (row: seq<Byte>)
    ensures |row| == 4 * m
  {
    if m == 0 then [] else Row(u, r, m - 1) + u(m - 1, r)
  }

  // The first `rows` rows over the given number of channels.
  ghost function Rows(u: Source, channels: nat, rows: nat): (block: seq<Byte>)
    ensures |block| == 4 * Lanes(rows, channels)
  {
    if rows == 0 then [] else Rows(u, channels, rows - 1) + Row(u, rows - 1, channels)
  }

  ghost function Block(tracks: seq<Track>, chunks: nat): seq<Byte>
    requires Rectangular(tracks, chunks)
  {
    Rows(UnitsOf(tracks), |tracks|, chunks + 1)
  }

  // ----- reading -----

  // Where row r of channel ch starts.
  function UnitAt(channels: nat, ch: nat, r: nat): nat
  {
    4 * (Lanes(r, channels) + ch)
  }

  function ToInt16(lo: Byte, hi: Byte): Sample
  {
    var u := lo + 256 * hi;
    if u >= 32768 then u - 65536 else u
  }

  function ChunkCount(size: nat, channels: nat): nat
    requires channels > 0 && size >= 4 * channels
  {
    (size - 4 * channels) / (4 * channels)
  }

  predicate HeaderAccepted(block: seq<Byte>, channels: nat, ch: nat)
    requires ch < channels && 4 * channels <= |block|
  {
    block[4 * ch + 2] <= 88 && block[4 * ch + 3] == 0
  }

  // The decoder's check of a block.
  predicate Accepted(block: seq<Byte>, channels: nat)
  {
    4 * channels <= |block|
    && forall ch :: 0 <= ch < channels ==> HeaderAccepted(block, channels, ch)
  }

  function ReadHeader(block: seq<Byte>, channels: nat, ch: nat): Predictor
    requires ch < channels && Accepted(block, channels)
  {
    assert HeaderAccepted(block, channels, ch);
    Predictor(ToInt16(block[4 * ch], block[4 * ch + 1]), block[4 * ch + 2])
  }

  // Row r of channel ch lies inside the block.
  predicate HasUnit(block: seq<Byte>, channels: nat, ch: nat, r: nat)
  {
    UnitAt(channels, ch, r) + 4 <= |block|
  }

  function ReadNibble(block: seq<Byte>, channels: nat, ch: nat, k: nat): Nibble
    requires HasUnit(block, channels, ch, k / 8 + 1)
  {
    var b := block[UnitAt(channels, ch, k / 8 + 1) + k % 8 / 2];
    if k % 2 == 0 then b % 16 else b / 16
  }

  lemma UnitsFit(size: nat, channels: nat, ch: nat, r: nat)
    requires channels > 0 && size >= 4 * channels && ch < channels
    requires r <= ChunkCount(size, channels)
    ensures UnitAt(channels, ch, r) + 4 <= size
  {
    QuotientBounds(size - 4 * channels, 4 * channels);
    var chunks := ChunkCount(size, channels);
    MulMonotone(r, chunks, 4 * channels);
    LanesProduct(r, channels);
    assert r * (4 * channels) == 4 * (r * channels);
  }

  /** Channel ch of a block, as the decoder reads it. */
  function ReadTrack(block: seq<Byte>, channels: nat, ch: nat): (t: Track)
    requires ch < channels && Accepted(block, channels)
    ensures |t.nibbles| == 8 * ChunkCount(|block|, channels)
  {
    Track(ReadHeader(block, channels, ch),
          seq(8 * ChunkCount(|block|, channels),
              k requires 0 <= k < 8 * ChunkCount(|block|, channels) =>
                UnitsFit(|block|, channels, ch, k / 8 + 1);
                ReadNibble(block, channels, ch, k)))
  }

  // ----- reading what was written -----

  lemma {:induction false} RowByte(u: Source, r: nat, m: nat, ch: nat, i: nat)
    requires ch < m && i < 4
    ensures Row(u, r, m)[4 * ch + i] == u(ch, r)[i]
  {
    if ch < m - 1 {
      RowByte(u, r, m - 1, ch, i);
    }
  }

  // Row r of channel ch of a block is that channel's own row r.
  lemma {:induction false} BlockByte(u: Source, channels: nat, rows: nat, r: nat, ch: nat, i: nat)
    requires r < rows && ch < channels && i < 4
    ensures UnitAt(channels, ch, r) + i < |Rows(u, channels, rows)|
    ensures Rows(u, channels, rows)[UnitAt(channels, ch, r) + i] == u(ch, r)[i]
  {
    if r < rows - 1 {
      BlockByte(u, channels, rows - 1, r, ch, i);
    } else {
      RowByte(u, r, channels, ch, i);
    }
  }

  // The same for the block of some tracks.
  lemma TrackByte(tracks: seq<Track>, chunks: nat, ch: nat, r: nat, i: nat)
    requires Rectangular(tracks, chunks) && ch < |tracks| && r <= chunks && i < 4
    ensures HasUnit(Block(tracks, chunks), |tracks|, ch, r)
    ensures Block(tracks, chunks)[UnitAt(|tracks|, ch, r) + i] == Unit(tracks[ch], r)[i]
  {
    hide Unit, Lanes, Rows;
    var u := UnitsOf(tracks);
    assert u(ch, r) == Unit(tracks[ch], r);
    BlockByte(u, |tracks|, chunks + 1, r, ch, 3);
    BlockByte(u, |tracks|, chunks + 1, r, ch, i);
  }

  lemma HeaderRoundTrip(pcm: Sample)
    ensures ToInt16(pcm % 256, pcm / 256 % 256) == pcm
  {
  }

  /** The decoder accepts every block with valid headers, and consumes all of it. */
  lemma BlockAccepted(tracks: seq<Track>, chunks: nat)
    requires Rectangular(tracks, chunks) && tracks != []
    ensures Accepted(Block(tracks, chunks), |tracks|)
    ensures ChunkCount(|Block(tracks, chunks)|, |tracks|) == chunks
    ensures |Block(tracks, chunks)| == 4 * |tracks| * (1 + chunks)
  {
    var n := |tracks|;
    var block := Block(tracks, chunks);
    SizeOf(chunks, n);
    forall ch | 0 <= ch < n
      ensures HeaderAccepted(block, n, ch)
    {
      TrackByte(tracks, chunks, ch, 0, 2);
      TrackByte(tracks, chunks, ch, 0, 3);
    }
  }

  lemma SizeOf(chunks: nat, channels: nat)
    requires channels > 0
    ensures 4 * Lanes(chunks + 1, channels) == 4 * channels * (1 + chunks)
    ensures ChunkCount(4 * Lanes(chunks + 1, channels), channels) == chunks
  {
    LanesProduct(chunks, channels);
    QuotientExact(chunks, 4 * channels);
    assert chunks * (4 * channels) == 4 * (chunks * channels);
  }

  lemma QuotientExact(a: nat, d: nat)
    requires d > 0
    ensures a * d / d == a
  {
    QuotientBounds(a * d, d);
    var x := a * d / d;
    assert (a + 1) * d == a * d + d;
    if x < a {
      MulMonotone(x + 1, a, d);
    } else if x > a {
      MulMonotone(a + 1, x, d);
    }
  }

  lemma UnitByte(t: Track, chunk: nat, i: nat)
    requires 8 * (chunk + 1) <= |t.nibbles| && i < 4
    ensures Unit(t, chunk + 1)[i] == Packed(t.nibbles, 8 * chunk + 2 * i)
  {
  }

  lemma Unpack(nibbles: seq<Nibble>, k: nat)
    requires k + 1 < |nibbles|
    ensures Packed(nibbles, k) % 16 == nibbles[k] && Packed(nibbles, k) / 16 == nibbles[k + 1]
  {
  }

  lemma NibbleRoundTrip(tracks: seq<Track>, chunks: nat, ch: nat, k: nat)
    requires Rectangular(tracks, chunks) && ch < |tracks| && k < 8 * chunks
    ensures HasUnit(Block(tracks, chunks), |tracks|, ch, k / 8 + 1)
    ensures ReadNibble(Block(tracks, chunks), |tracks|, ch, k) == tracks[ch].nibbles[k]
  {
    hide Unit, Block, Packed, UnitAt;
    var chunk, i := k / 8, k % 8 / 2;
    TrackByte(tracks, chunks, ch, chunk + 1, i);
    UnitByte(tracks[ch], chunk, i);
    Unpack(tracks[ch].nibbles, 8 * chunk + 2 * i);
    assert k == 8 * chunk + 2 * i + k % 2;
  }

  /** Writing any tracks as a block and reading channel ch back gives that track. */
  lemma LayoutRoundTrip(tracks: seq<Track>, chunks: nat, ch: nat)
    requires Rectangular(tracks, chunks) && ch < |tracks|
    ensures Accepted(Block(tracks, chunks), |tracks|)
    ensures ReadTrack(Block(tracks, chunks), |tracks|, ch) == tracks[ch]
  {
    var block := Block(tracks, chunks);
    BlockAccepted(tracks, chunks);
    TrackByte(tracks, chunks, ch, 0, 0);
    TrackByte(tracks, chunks, ch, 0, 1);
    TrackByte(tracks, chunks, ch, 0, 2);
    HeaderRoundTrip(tracks[ch].header.pcm);
    forall k | 0 <= k < 8 * chunks
      ensures ReadTrack(block, |tracks|, ch).nibbles[k] == tracks[ch].nibbles[k]
    {
      NibbleRoundTrip(tracks, chunks, ch, k);
    }
  }
}
