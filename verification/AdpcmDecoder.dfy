/**
 The block decoder, writing interleaved PCM in place.
 */
module AdpcmDecoder {
  import opened AdpcmPredictor
  import opened AdpcmSearch
  import opened AdpcmLayout
  import opened AdpcmTrace

  // ----- one nibble, picked out of its byte by masks -----

  // The change a nibble stands for, its bits being those of `b` from bit `unit` on.
  function MaskedDelta(step: int, b: Byte, unit: nat): int
    requires unit > 0
  {
    var magnitude := step / 8
                     + (if BitSet(b, unit) then step / 4 else 0)
                     + (if BitSet(b, 2 * unit) then step / 2 else 0)
                     + (if BitSet(b, 4 * unit) then step else 0);
    if BitSet(b, 8 * unit) then -magnitude else magnitude
  }

  lemma LowMask(step: int, b: Byte)
    ensures MaskedDelta(step, b, 1) == TrialDelta(step, b % 16)
  {
    var high, low := b / 16, b % 16;
    assert b / 2 == 8 * high + low / 2;
    assert b / 4 == 4 * high + low / 4;
    assert b / 8 == 2 * high + low / 8;
    assert b % 2 == low % 2 && b / 2 % 2 == low / 2 % 2;
    assert b / 4 % 2 == low / 4 % 2 && b / 8 % 2 == low / 8 % 2;
  }

  lemma HighMask(step: int, b: Byte)
    ensures MaskedDelta(step, b, 16) == TrialDelta(step, b / 16)
  {
    assert b / 16 / 1 % 2 == b / 16 % 2;
    assert b / 16 / 2 % 2 == b / 32 % 2;
    assert b / 16 / 4 % 2 == b / 64 % 2;
    assert b / 16 / 8 % 2 == b / 128 % 2;
  }

  method DecodeLow(p: Predictor, b: Byte) returns (p': Predictor)
    ensures p' == Advance(p, b % 16)
  {
    hide Step, MaskedDelta, TrialDelta, Clip;
    assert b % 16 % 8 == b % 8;
    LowMask(Step(p.index), b);
    p' := Predictor(Clip(p.pcm + MaskedDelta(Step(p.index), b, 1), -32768, 32767),
                    Clip(p.index + INDEX_TABLE[b % 8], 0, 88));
  }

  method DecodeHigh(p: Predictor, b: Byte) returns (p': Predictor)
    ensures p' == Advance(p, b / 16)
  {
    hide Step, MaskedDelta, TrialDelta, Clip;
    HighMask(Step(p.index), b);
    p' := Predictor(Clip(p.pcm + MaskedDelta(Step(p.index), b, 16), -32768, 32767),
                    Clip(p.index + INDEX_TABLE[b / 16 % 8], 0, 88));
  }

  // ----- the output -----

  // Where composite sample k of channel ch goes.
  function Slot(channels: nat, k: nat, ch: nat): nat
  {
    if channels == 1 then k + ch else 2 * k + ch
  }

  lemma {:induction false} SlotIsInterleaved(channels: nat, k: nat, ch: nat)
    requires 1 <= channels <= 2
    ensures Slot(channels, k, ch) == k * channels + ch == Lanes(k, channels) + ch
  {
    LanesProduct(k, channels);
  }

  lemma SlotsAreDistinct(channels: nat, k: nat, ch: nat, k': nat, ch': nat)
    requires 1 <= channels <= 2 && ch < channels && ch' < channels
    requires Slot(channels, k, ch) == Slot(channels, k', ch')
    ensures k == k' && ch == ch'
  {
  }

  // ----- the order of the stores -----

  /** Every index from lo up to hi is in the list, once, and no other. */
  ghost predicate OnceEach(stored: seq<int>, lo: nat, hi: nat)
  {
    && (forall x :: 0 <= x < |stored| ==> lo <= stored[x] < hi)
    && (forall x, y :: 0 <= x < y < |stored| ==> stored[x] != stored[y])
    && (forall j: nat :: lo <= j < hi ==> j in stored)
  }

  lemma OnceEachJoin(a: seq<int>, b: seq<int>, lo: nat, mid: nat, hi: nat)
    requires lo <= mid <= hi && OnceEach(a, lo, mid) && OnceEach(b, mid, hi)
    ensures OnceEach(a + b, lo, hi)
  {
  }

  // The slots of the header samples.
  function HeaderSlots(n: nat): (slots: seq<int>)
    ensures |slots| == n && forall i :: 0 <= i < n ==> slots[i] == i
  {
    seq(n, i requires 0 <= i => i)
  }

  // The slots of the first m samples of a chunk of one channel.
  function QuadSlots(channels: nat, ch: nat, chunk: nat, m: nat): (slots: seq<int>)
    ensures |slots| == m && forall i :: 0 <= i < m ==> slots[i] == Slot(channels, 8 * chunk + 1 + i, ch)
  {
    seq(m, i requires 0 <= i => Slot(channels, 8 * chunk + 1 + i, ch))
  }

  // The slots of a chunk of the first n channels, channel by channel.
  function RowSlots(channels: nat, chunk: nat, n: nat): seq<int>
  {
    if n == 0 then [] else RowSlots(channels, chunk, n - 1) + QuadSlots(channels, n - 1, chunk, 8)
  }

  function ChunkSlots(channels: nat, chunks: nat): seq<int>
  {
    if chunks == 0 then [] else ChunkSlots(channels, chunks - 1) + RowSlots(channels, chunks - 1, channels)
  }

  lemma RowSlotAt(channels: nat, chunk: nat, ch: nat, i: nat)
    requires 1 <= channels <= 2 && ch < channels && i < 8
    ensures |RowSlots(channels, chunk, channels)| == 8 * channels
    ensures RowSlots(channels, chunk, channels)[8 * ch + i] == Slot(channels, 8 * chunk + 1 + i, ch)
  {
    assert RowSlots(channels, chunk, 1) == QuadSlots(channels, 0, chunk, 8);
  }

  // A row fills the next 8 * channels slots.
  lemma RowOnce(channels: nat, chunk: nat)
    requires 1 <= channels <= 2
    ensures OnceEach(RowSlots(channels, chunk, channels), channels * (1 + 8 * chunk), channels * (1 + 8 * (chunk + 1)))
  {
    hide RowSlots;
    var slots, lo := RowSlots(channels, chunk, channels), channels * (1 + 8 * chunk);
    RowSlotAt(channels, chunk, 0, 0);
    forall x: nat | x < |slots|
      ensures slots[x] == Slot(channels, 8 * chunk + 1 + x % 8, x / 8)
    {
      RowSlotAt(channels, chunk, x / 8, x % 8);
    }
    forall j: nat | lo <= j < lo + 8 * channels
      ensures j in slots
    {
      var ch, i := if channels == 1 then 0 else (j - lo) % 2, if channels == 1 then j - lo else (j - lo) / 2;
      RowSlotAt(channels, chunk, ch, i);
      assert slots[8 * ch + i] == j;
    }
  }

  lemma HeadersOnce(channels: nat)
    ensures OnceEach(HeaderSlots(channels), 0, channels)
  {
    var slots := HeaderSlots(channels);
    forall j: nat | j < channels
      ensures j in slots
    {
      assert slots[j] == j;
    }
  }

  /** The decoder's stores hit every slot of its output exactly once. */
  lemma {:induction false} StoresOnce(channels: nat, chunks: nat)
    requires 1 <= channels <= 2
    ensures OnceEach(HeaderSlots(channels) + ChunkSlots(channels, chunks), 0, channels * (1 + 8 * chunks))
  {
    hide OnceEach, RowSlots;
    var headers := HeaderSlots(channels);
    if chunks == 0 {
      HeadersOnce(channels);
      assert headers + ChunkSlots(channels, 0) == headers;
    } else {
      var before, row := ChunkSlots(channels, chunks - 1), RowSlots(channels, chunks - 1, channels);
      StoresOnce(channels, chunks - 1);
      RowOnce(channels, chunks - 1);
      OnceEachJoin(headers + before, row, 0, channels * (1 + 8 * (chunks - 1)), channels * (1 + 8 * chunks));
      assert headers + before + row == headers + ChunkSlots(channels, chunks);
    }
  }

  /** Channel ch of the output is right up to and including composite sample n. */
  ghost predicate Decoded(out: seq<Sample>, channels: nat, ch: nat, t: Track, n: nat)
    requires n <= |t.nibbles|
  {
    forall k: nat :: k <= n ==>
      Slot(channels, k, ch) < |out| && out[Slot(channels, k, ch)] == DecodedAt(Ima(), t, k).pcm
  }

  // The output index computed from the pointer of the chunk is the sample's slot.
  lemma OutIndex(channels: nat, base: nat, i: nat, ch: nat)
    requires 1 <= channels <= 2
    ensures Slot(channels, base, ch) + i * channels == Slot(channels, base + i, ch)
  {
  }

  // The bytes at `at` hold chunk `chunk` of the track.
  ghost predicate HoldsChunk(inbuf: seq<Byte>, at: nat, t: Track, chunk: nat)
  {
    && at + 4 <= |inbuf| && 8 * chunk + 8 <= |t.nibbles|
    && forall i :: 0 <= i < 4 ==>
         t.nibbles[8 * chunk + 2 * i] == inbuf[at + i] % 16 && t.nibbles[8 * chunk + 2 * i + 1] == inbuf[at + i] / 16
  }

  // Index j is not one that chunk `chunk` of channel ch writes.
  predicate Elsewhere(channels: nat, chunk: nat, ch: nat, j: int)
  {
    j < Slot(channels, 8 * chunk + 1, ch) || j > Slot(channels, 8 * chunk + 8, ch) || (channels == 2 && j % 2 != ch)
  }

  /** m samples of a chunk are written, and nothing outside it has changed. */
  ghost predicate Progress(out: seq<Sample>, before: seq<Sample>, channels: nat, ch: nat, t: Track, chunk: nat, m: nat)
  {
    && |out| == |before| && 8 * chunk + m <= |t.nibbles|
    && (forall k: nat :: 8 * chunk < k <= 8 * chunk + m ==>
          Slot(channels, k, ch) < |out| && out[Slot(channels, k, ch)] == DecodedAt(Ima(), t, k).pcm)
    && (forall j :: 0 <= j < |out| && Elsewhere(channels, chunk, ch, j) ==> out[j] == before[j])
  }

  lemma Put(out: seq<Sample>, before: seq<Sample>, channels: nat, ch: nat, t: Track, chunk: nat, m: nat, x: Sample)
    requires 1 <= channels <= 2 && ch < channels && m < 8
    requires Progress(out, before, channels, ch, t, chunk, m)
    requires 8 * chunk + m + 1 <= |t.nibbles| && Slot(channels, 8 * chunk + m + 1, ch) < |out|
    requires x == DecodedAt(Ima(), t, 8 * chunk + m + 1).pcm
    ensures Progress(out[Slot(channels, 8 * chunk + m + 1, ch) := x], before, channels, ch, t, chunk, m + 1)
  {
    hide DecodedAt;
  }

  /** Four bytes of one channel into eight output samples. */
  method DecodeQuad(outbuf: array<Sample>, o: nat, inbuf: seq<Byte>, at: nat, channels: nat, ch: nat, p: Predictor,
                    ghost t: Track, ghost chunk: nat) returns (p': Predictor, ghost stored: seq<int>)
    requires 1 <= channels <= 2 && ch < channels
    requires o == Slot(channels, 8 * chunk + 1, ch) && Slot(channels, 8 * chunk + 8, ch) < outbuf.Length
    requires HoldsChunk(inbuf, at, t, chunk) && p == DecodedAt(Ima(), t, 8 * chunk)
    modifies outbuf
    ensures 8 * chunk + 8 <= |t.nibbles| && p' == DecodedAt(Ima(), t, 8 * chunk + 8)
    ensures Progress(outbuf[..], old(outbuf[..]), channels, ch, t, chunk, 8)
    ensures stored == QuadSlots(channels, ch, chunk, 8)
  {
    hide Advance, Progress, Slot;
    stored := [];
    ghost var before := outbuf[..];
    p' := p;
    Start(before, channels, ch, t, chunk);
    for i := 0 to 4
      invariant p' == DecodedAt(Ima(), t, 8 * chunk + 2 * i)
      invariant Progress(outbuf[..], before, channels, ch, t, chunk, 2 * i)
      invariant stored == QuadSlots(channels, ch, chunk, 2 * i)
    {
      OutIndex(channels, 8 * chunk + 1, 2 * i, ch);
      OutIndex(channels, 8 * chunk + 1, 2 * i + 1, ch);
      SlotGrows(channels, 8 * chunk + 1 + 2 * i, 8 * chunk + 8, ch);
      SlotGrows(channels, 8 * chunk + 2 + 2 * i, 8 * chunk + 8, ch);
      p' := DecodeLow(p', inbuf[at + i]);
      Put(outbuf[..], before, channels, ch, t, chunk, 2 * i, p'.pcm);
      outbuf[o + 2 * i * channels] := p'.pcm;
      stored := stored + [o + 2 * i * channels];
      p' := DecodeHigh(p', inbuf[at + i]);
      Put(outbuf[..], before, channels, ch, t, chunk, 2 * i + 1, p'.pcm);
      outbuf[o + (2 * i + 1) * channels] := p'.pcm;
      stored := stored + [o + (2 * i + 1) * channels];
    }
  }

  lemma Start(out: seq<Sample>, channels: nat, ch: nat, t: Track, chunk: nat)
    requires 8 * chunk <= |t.nibbles|
    ensures Progress(out, out, channels, ch, t, chunk, 0)
  {
  }

  lemma SlotGrows(channels: nat, k: nat, k': nat, ch: nat)
    requires k <= k'
    ensures Slot(channels, k, ch) <= Slot(channels, k', ch)
  {
  }

  // A chunk of channel ch extends that channel and leaves the others alone.
  lemma ExtendsOwn(out: seq<Sample>, before: seq<Sample>, channels: nat, ch: nat, t: Track, chunk: nat)
    requires 1 <= channels <= 2 && ch < channels && 8 * chunk + 8 <= |t.nibbles|
    requires Decoded(before, channels, ch, t, 8 * chunk) && Progress(out, before, channels, ch, t, chunk, 8)
    ensures Decoded(out, channels, ch, t, 8 * chunk + 8)
  {
  }

  lemma KeepsOther(out: seq<Sample>, before: seq<Sample>, channels: nat, ch: nat, t: Track, chunk: nat,
                   other: nat, u: Track, n: nat)
    requires 1 <= channels <= 2 && ch < channels && other < channels && other != ch && n <= |u.nibbles|
    requires Decoded(before, channels, other, u, n) && Progress(out, before, channels, ch, t, chunk, 8)
    ensures Decoded(out, channels, other, u, n)
  {
    hide DecodedAt;
  }

  lemma NibblePlace(inbuf: seq<Byte>, channels: nat, ch: nat, chunk: nat, i: nat)
    requires HasUnit(inbuf, channels, ch, chunk + 1) && i < 4
    ensures (8 * chunk + 2 * i) / 8 == (8 * chunk + 2 * i + 1) / 8 == chunk
    ensures ReadNibble(inbuf, channels, ch, 8 * chunk + 2 * i) == inbuf[UnitAt(channels, ch, chunk + 1) + i] % 16
    ensures ReadNibble(inbuf, channels, ch, 8 * chunk + 2 * i + 1) == inbuf[UnitAt(channels, ch, chunk + 1) + i] / 16
  {
    hide UnitAt;
    PairPlace(chunk, i);
  }

  lemma PairPlace(chunk: nat, i: nat)
    requires i < 4
    ensures var k := 8 * chunk + 2 * i;
            && k / 8 == (k + 1) / 8 == chunk
            && k % 8 / 2 == (k + 1) % 8 / 2 == i
            && k % 2 == 0 && (k + 1) % 2 == 1
  {
    EighthsOf(chunk, 2 * i);
    EighthsOf(chunk, 2 * i + 1);
    EvenOf(4 * chunk + i);
  }

  lemma EighthsOf(a: nat, r: nat)
    requires r < 8
    ensures (8 * a + r) / 8 == a && (8 * a + r) % 8 == r
  {
  }

  lemma EvenOf(h: nat)
    ensures 2 * h % 2 == 0 && (2 * h + 1) % 2 == 1
  {
  }

  lemma ChunkOfTrack(inbuf: seq<Byte>, channels: nat, ch: nat, chunk: nat)
    requires 1 <= channels <= 2 && ch < channels && Accepted(inbuf, channels)
    requires chunk < ChunkCount(|inbuf|, channels)
    ensures HoldsChunk(inbuf, UnitAt(channels, ch, chunk + 1), ReadTrack(inbuf, channels, ch), chunk)
  {
    hide UnitAt, ReadHeader;
    UnitsFit(|inbuf|, channels, ch, chunk + 1);
    var t, at := ReadTrack(inbuf, channels, ch), UnitAt(channels, ch, chunk + 1);
    forall i | 0 <= i < 4
      ensures t.nibbles[8 * chunk + 2 * i] == inbuf[at + i] % 16
      ensures t.nibbles[8 * chunk + 2 * i + 1] == inbuf[at + i] / 16
    {
      NibblePlace(inbuf, channels, ch, chunk, i);
    }
  }

  // Every channel is decoded up to composite sample n, and nothing beyond is touched.
  ghost predicate DecodedAll(out: seq<Sample>, before: seq<Sample>, inbuf: seq<Byte>, channels: nat, n: nat)
    requires channels > 0 && Accepted(inbuf, channels) && n <= 8 * ChunkCount(|inbuf|, channels)
  {
    && |out| == |before|
    && (forall ch: nat :: ch < channels ==> Decoded(out, channels, ch, ReadTrack(inbuf, channels, ch), n))
    && (forall j :: Slot(channels, n + 1, 0) <= j < |out| ==> out[j] == before[j])
  }

  // The header samples of the first n channels are stored and the rest is untouched.
  ghost predicate HeadersStored(out: seq<Sample>, before: seq<Sample>, inbuf: seq<Byte>, n: nat)
    requires 4 * n <= |inbuf|
  {
    && n <= |out| == |before|
    && (forall c :: 0 <= c < n ==> out[c] == ToInt16(inbuf[4 * c], inbuf[4 * c + 1]))
    && out[n..] == before[n..]
  }

  // Channel ch is the first whose header the decoder refuses.
  predicate Refused(inbuf: seq<Byte>, channels: nat, ch: nat)
    requires ch < channels && 4 * channels <= |inbuf|
  {
    !HeaderAccepted(inbuf, channels, ch) && forall c :: 0 <= c < ch ==> HeaderAccepted(inbuf, channels, c)
  }

  // The decoder's per-channel state after n nibbles of every channel.
  ghost predicate StateAfter(state: seq<Predictor>, inbuf: seq<Byte>, channels: nat, n: nat)
    requires channels > 0 && Accepted(inbuf, channels) && n <= 8 * ChunkCount(|inbuf|, channels)
  {
    |state| == channels
    && forall ch: nat :: ch < channels ==> state[ch] == DecodedAt(Ima(), ReadTrack(inbuf, channels, ch), n)
  }

  lemma HeadersDecoded(out: seq<Sample>, before: seq<Sample>, inbuf: seq<Byte>, channels: nat, state: seq<Predictor>)
    requires 1 <= channels <= 2 && Accepted(inbuf, channels)
    requires HeadersStored(out, before, inbuf, channels) && |state| == channels
    requires forall ch: nat :: ch < channels ==> state[ch] == ReadHeader(inbuf, channels, ch)
    ensures DecodedAll(out, before, inbuf, channels, 0) && StateAfter(state, inbuf, channels, 0)
  {
  }

  /** The rows of a block after its headers. */
  method DecodeChunks(outbuf: array<Sample>, inbuf: seq<Byte>, channels: nat, start: seq<Predictor>, count: nat,
                      ghost before: seq<Sample>) returns (ghost stored: seq<int>)
    requires 1 <= channels <= 2 && Accepted(inbuf, channels) && count == ChunkCount(|inbuf|, channels)
    requires channels * (1 + 8 * count) <= outbuf.Length
    requires StateAfter(start, inbuf, channels, 0)
    requires DecodedAll(outbuf[..], before, inbuf, channels, 0)
    modifies outbuf
    ensures DecodedAll(outbuf[..], before, inbuf, channels, 8 * count)
    ensures stored == ChunkSlots(channels, count)
  {
    hide DecodedAll, StateAfter, DecodedAt, RowSlots;
    stored := [];
    var chunks: nat, state, o: nat, at: nat := count, start, channels, 4 * channels;
    ghost var done: nat := 0;
    LastSlot(channels, count);
    while chunks > 0
      invariant chunks + done == count
      invariant o == Slot(channels, 8 * done + 1, 0) && at == UnitAt(channels, 0, done + 1)
      invariant StateAfter(state, inbuf, channels, 8 * done)
      invariant DecodedAll(outbuf[..], before, inbuf, channels, 8 * done)
      invariant stored == ChunkSlots(channels, done)
    {
      chunks := chunks - 1;
      SlotGrows(channels, 8 * done + 8, 8 * count, channels - 1);
      ghost var row;
      state, row := DecodeRow(outbuf, o, inbuf, at, channels, state, done, before);
      stored := stored + row;
      o := o + 8 * channels;
      at := at + 4 * channels;
      done := done + 1;
    }
  }

  /** One row of a block: eight samples of every channel. */
  method DecodeRow(outbuf: array<Sample>, o: nat, inbuf: seq<Byte>, at: nat, channels: nat, start: seq<Predictor>,
                   ghost done: nat, ghost before: seq<Sample>)
    returns (state: seq<Predictor>, ghost stored: seq<int>)
    requires 1 <= channels <= 2 && Accepted(inbuf, channels) && done < ChunkCount(|inbuf|, channels)
    requires o == Slot(channels, 8 * done + 1, 0) && at == UnitAt(channels, 0, done + 1)
    requires Slot(channels, 8 * done + 8, channels - 1) < outbuf.Length
    requires StateAfter(start, inbuf, channels, 8 * done)
    requires DecodedAll(outbuf[..], before, inbuf, channels, 8 * done)
    modifies outbuf
    ensures StateAfter(state, inbuf, channels, 8 * done + 8)
    ensures DecodedAll(outbuf[..], before, inbuf, channels, 8 * done + 8)
    ensures stored == RowSlots(channels, done, channels)
  {
    hide DecodedAt, Decoded, Progress, ReadTrack, QuadSlots;
    state, stored := start, [];
    for ch := 0 to channels
      invariant |state| == channels && outbuf.Length == |before|
      invariant stored == RowSlots(channels, done, ch)
      invariant forall c: nat :: c < ch ==> state[c] == DecodedAt(Ima(), ReadTrack(inbuf, channels, c), 8 * done + 8)
      invariant forall c: nat :: ch <= c < channels ==> state[c] == start[c]
      invariant forall c: nat :: c < ch ==>
                  Decoded(outbuf[..], channels, c, ReadTrack(inbuf, channels, c), 8 * done + 8)
      invariant forall c: nat :: ch <= c < channels ==>
                  Decoded(outbuf[..], channels, c, ReadTrack(inbuf, channels, c), 8 * done)
      invariant forall j :: Slot(channels, 8 * done + 9, 0) <= j < outbuf.Length ==> outbuf[j] == before[j]
    {
      ghost var t, was := ReadTrack(inbuf, channels, ch), outbuf[..];
      ChunkOfTrack(inbuf, channels, ch, done);
      var p, quad := DecodeQuad(outbuf, o + ch, inbuf, at + 4 * ch, channels, ch, state[ch], t, done);
      state, stored := state[ch := p], stored + quad;
      ExtendsOwn(outbuf[..], was, channels, ch, t, done);
      forall c: nat | c < channels && c != ch
        ensures Decoded(outbuf[..], channels, c, ReadTrack(inbuf, channels, c), if c < ch then 8 * done + 8 else 8 * done)
      {
        KeepsOther(outbuf[..], was, channels, ch, t, done, c, ReadTrack(inbuf, channels, c),
                   if c < ch then 8 * done + 8 else 8 * done);
      }
      KeepsTail(outbuf[..], was, channels, ch, t, done);
    }
  }

  lemma KeepsTail(out: seq<Sample>, before: seq<Sample>, channels: nat, ch: nat, t: Track, chunk: nat)
    requires 1 <= channels <= 2 && ch < channels && Progress(out, before, channels, ch, t, chunk, 8)
    ensures |out| == |before|
    ensures forall j :: Slot(channels, 8 * chunk + 9, 0) <= j < |out| ==> out[j] == before[j]
  {
  }

  lemma LastSlot(channels: nat, count: nat)
    requires 1 <= channels <= 2
    ensures Slot(channels, 8 * count, channels - 1) < channels * (1 + 8 * count)
  {
  }

  /** Decodes a block. Returns the number of composite samples, or 0 when the block is too
      short or a header is refused; header samples read up to that point are still stored.
      `stored` lists the indices of the output in the order they are stored to. */
  method DecodeBlock(outbuf: array<Sample>, inbuf: seq<Byte>, channels: nat)
    returns (samples: nat, ghost stored: seq<int>)
    requires 1 <= channels <= 2
    requires 4 * channels <= |inbuf| ==> channels <= outbuf.Length
    requires Accepted(inbuf, channels) ==> channels * (1 + 8 * ChunkCount(|inbuf|, channels)) <= outbuf.Length
    modifies outbuf
    ensures |inbuf| < 4 * channels ==> samples == 0 && stored == [] && outbuf[..] == old(outbuf[..])
    ensures |inbuf| >= 4 * channels && !Accepted(inbuf, channels) ==>
              samples == 0
              && exists ch: nat :: ch < channels && Refused(inbuf, channels, ch)
                                   && HeadersStored(outbuf[..], old(outbuf[..]), inbuf, ch + 1)
                                   && stored == HeaderSlots(ch + 1)
    ensures Accepted(inbuf, channels) ==>
              samples == 1 + 8 * ChunkCount(|inbuf|, channels)
              && DecodedAll(outbuf[..], old(outbuf[..]), inbuf, channels, samples - 1)
              && OnceEach(stored, 0, channels * samples)
  {
    hide OnceEach;
    samples, stored := 1, [];
    if |inbuf| < channels * 4 {
      return 0, [];
    }
    var state: seq<Predictor> := [];
    for ch := 0 to channels
      invariant HeadersStored(outbuf[..], old(outbuf[..]), inbuf, ch) && stored == HeaderSlots(ch)
      invariant forall c :: 0 <= c < ch ==> HeaderAccepted(inbuf, channels, c)
      invariant |state| == ch
      invariant forall c :: 0 <= c < ch ==>
                  state[c].pcm == ToInt16(inbuf[4 * c], inbuf[4 * c + 1]) && state[c].index == inbuf[4 * c + 2]
    {
      var first := ToInt16(inbuf[4 * ch], inbuf[4 * ch + 1]);
      outbuf[ch] := first;
      stored := stored + [ch];
      assert HeadersStored(outbuf[..], old(outbuf[..]), inbuf, ch + 1);
      var index := ToInt8(inbuf[4 * ch + 2]);
      if index < 0 || index > 88 || inbuf[4 * ch + 3] != 0 {
        assert Refused(inbuf, channels, ch);
        return 0, stored;
      }
      state := state + [Predictor(first, index)];
    }
    var chunks := ChunkCount(|inbuf|, channels);
    samples := samples + chunks * 8;
    HeadersDecoded(outbuf[..], old(outbuf[..]), inbuf, channels, state);
    ghost var rows := DecodeChunks(outbuf, inbuf, channels, state, chunks, old(outbuf[..]));
    stored := stored + rows;
    StoresOnce(channels, chunks);
  }

  // The source keeps the index byte in a signed char.
  function ToInt8(b: Byte): int
  {
    if b >= 128 then b - 256 else b
  }
}
