/**
 Configuration space below 0x100 is a little-endian byte memory: the read-modify-write
 accesses on words refine it, for every sequence of accesses.
 */
module PciBytes {
  import opened Wrappers
  import opened PciConfig

  // ----- the byte memory -----

  // A byte for every function and offset; tags of the same function name the same bytes.
  type Bytes = (Tag, bv64) -> bv32

  // Byte d of a value.
  function ByteOf(val: bv32, lane: Lane): bv32
  {
    ToRight(val, lane) & 0xff
  }

  function BytesRead(m: Bytes, tag: Tag, reg: bv64, width: Width): bv32
  {
    if width == 1 then m(tag, reg)
    else if width == 2 then Joined(m(tag, reg), m(tag, reg + 1), 0, 0)
    else Joined(m(tag, reg), m(tag, reg + 1), m(tag, reg + 2), m(tag, reg + 3))
  }

  // Four bytes in little-endian order.
  function Joined(b0: bv32, b1: bv32, b2: bv32, b3: bv32): bv32
  {
    b0 | (b1 << 8) | (b2 << 16) | (b3 << 24)
  }

  predicate Covers(reg: bv64, width: Width, off: bv64)
  {
    if width == 1 then off == reg
    else if width == 2 then off == reg || off == reg + 1
    else off == reg || off == reg + 1 || off == reg + 2 || off == reg + 3
  }

  function BytesWritten(m: Bytes, tag: Tag, reg: bv64, val: bv32, width: Width): Bytes
  {
    (tag', off) => if SameFunction(tag, tag') && Covers(reg, width, off) then ByteOf(val, LaneOf(off - reg)) else m(tag', off)
  }

  // The byte that the hardware words hold for an offset.
  function ByteAt(words: Words, tag: Tag, off: bv64): bv32
  {
    ByteOf(words(ReadAddress(tag, WordOf(off))), LaneOf(off))
  }

  // ----- one access -----

  /** Offsets that behave as memory: in the first 256 bytes of a function that can be reached
      and is not hidden, and outside the fixed class code. */
  predicate Plain(buses: seq<Option<Bridge>>, tag: Tag, off: bv64)
  {
    off < 0x100 && Reachable(buses, tag) && !Hidden(tag) && !(FixedClass(tag) && WordOf(off) == 8)
  }

  predicate Aligned(reg: bv64, width: Width)
  {
    reg & WidthMask(width) == 0
  }

  predicate Fits(val: bv32, width: Width)
  {
    val <= Ones(width)
  }

  // The offset of a byte of an access is its lane's.
  lemma CoveredOffset(reg: bv64, width: Width, off: bv64)
    requires Aligned(reg, width) && reg < 0x100 && off < 0x100 && Covers(reg, width, off)
    ensures WordOf(off) == WordOf(reg) && LaneOf(off) - LaneOf(reg) == LaneOf(off - reg) < width
  {
  }

  lemma LaneFits(reg: bv64, width: Width)
    requires Aligned(reg, width)
    ensures LaneOf(reg) + width <= 4
  {
  }

  // An offset is its word and its lane.
  lemma LaneOffset(off: bv64, lane: bv64)
    requires off < 0x100 && off & 3 == lane
    ensures off == WordOf(off) + lane
  {
  }

  lemma LaneCovered(reg: bv64, width: Width, off: bv64)
    requires reg < 0x100 && off < 0x100 && WordOf(off) == WordOf(reg) && LaneOf(reg) <= LaneOf(off) < LaneOf(reg) + width
    ensures Covers(reg, width, off)
  {
    hide WordOf;
    LaneOffset(reg, reg & 3);
    LaneOffset(off, off & 3);
  }

  // The bytes of an access lie in its word, at consecutive lanes.
  lemma CoveredLanes(reg: bv64, width: Width, off: bv64)
    requires Aligned(reg, width) && reg < 0x100 && off < 0x100
    ensures Covers(reg, width, off)
       <==> WordOf(off) == WordOf(reg) && LaneOf(reg) <= LaneOf(off) < LaneOf(reg) + width
    ensures Covers(reg, width, off) ==> LaneOf(off - reg) == LaneOf(off) - LaneOf(reg)
    ensures LaneOf(reg) + width <= 4
  {
    hide LaneOf, WordOf, Covers, Aligned;
    LaneFits(reg, width);
    if Covers(reg, width, off) {
      CoveredOffset(reg, width, off);
    } else if WordOf(off) == WordOf(reg) && LaneOf(reg) <= LaneOf(off) < LaneOf(reg) + width {
      LaneCovered(reg, width, off);
    }
  }

  // Splitting a word into the bytes of an access.
  lemma ExtractIsBytes(data: bv32, lane: Lane, width: Width)
    requires width == 2 ==> lane == 0 || lane == 2
    requires width == 4 ==> lane == 0
    ensures Extract(data, lane, width)
         == if width == 1 then ByteOf(data, lane)
            else if width == 2 then Joined(ByteOf(data, lane), ByteOf(data, lane + 1), 0, 0)
            else Joined(ByteOf(data, 0), ByteOf(data, 1), ByteOf(data, 2), ByteOf(data, 3))
  {
    hide Extract, ByteOf, Joined;
    OneByte(data, lane);
    LowHalf(data);
    HighHalf(data);
    WordBytes(data);
  }

  lemma OneByte(data: bv32, lane: Lane)
    ensures Extract(data, lane, 1) == ByteOf(data, lane)
  {
  }

  lemma LowHalf(data: bv32)
    ensures Extract(data, 0, 2) == Joined(ByteOf(data, 0), ByteOf(data, 1), 0, 0)
  {
  }

  lemma HighHalf(data: bv32)
    ensures Extract(data, 2, 2) == Joined(ByteOf(data, 2), ByteOf(data, 3), 0, 0)
  {
  }

  lemma WordBytes(data: bv32)
    ensures Extract(data, 0, 4) == Joined(ByteOf(data, 0), ByteOf(data, 1), ByteOf(data, 2), ByteOf(data, 3))
  {
  }

  lemma MergeByte0(data: bv32, val: bv32)
    requires val <= 0xff
    ensures ByteOf(Merged(data, 0, val, 1), 0) == ByteOf(val, 0)
    ensures ByteOf(Merged(data, 0, val, 1), 1) == ByteOf(data, 1)
    ensures ByteOf(Merged(data, 0, val, 1), 2) == ByteOf(data, 2)
    ensures ByteOf(Merged(data, 0, val, 1), 3) == ByteOf(data, 3)
  {
  }

  lemma MergeByte1(data: bv32, val: bv32)
    requires val <= 0xff
    ensures ByteOf(Merged(data, 1, val, 1), 0) == ByteOf(data, 0)
    ensures ByteOf(Merged(data, 1, val, 1), 1) == ByteOf(val, 0)
    ensures ByteOf(Merged(data, 1, val, 1), 2) == ByteOf(data, 2)
    ensures ByteOf(Merged(data, 1, val, 1), 3) == ByteOf(data, 3)
  {
  }

  lemma MergeByte2(data: bv32, val: bv32)
    requires val <= 0xff
    ensures ByteOf(Merged(data, 2, val, 1), 0) == ByteOf(data, 0)
    ensures ByteOf(Merged(data, 2, val, 1), 1) == ByteOf(data, 1)
    ensures ByteOf(Merged(data, 2, val, 1), 2) == ByteOf(val, 0)
    ensures ByteOf(Merged(data, 2, val, 1), 3) == ByteOf(data, 3)
  {
  }

  lemma MergeByte3(data: bv32, val: bv32)
    requires val <= 0xff
    ensures ByteOf(Merged(data, 3, val, 1), 0) == ByteOf(data, 0)
    ensures ByteOf(Merged(data, 3, val, 1), 1) == ByteOf(data, 1)
    ensures ByteOf(Merged(data, 3, val, 1), 2) == ByteOf(data, 2)
    ensures ByteOf(Merged(data, 3, val, 1), 3) == ByteOf(val, 0)
  {
  }

  lemma MergeHalf0(data: bv32, val: bv32)
    requires val <= 0xffff
    ensures ByteOf(Merged(data, 0, val, 2), 0) == ByteOf(val, 0)
    ensures ByteOf(Merged(data, 0, val, 2), 1) == ByteOf(val, 1)
    ensures ByteOf(Merged(data, 0, val, 2), 2) == ByteOf(data, 2)
    ensures ByteOf(Merged(data, 0, val, 2), 3) == ByteOf(data, 3)
  {
  }

  lemma MergeHalf2(data: bv32, val: bv32)
    requires val <= 0xffff
    ensures ByteOf(Merged(data, 2, val, 2), 0) == ByteOf(data, 0)
    ensures ByteOf(Merged(data, 2, val, 2), 1) == ByteOf(data, 1)
    ensures ByteOf(Merged(data, 2, val, 2), 2) == ByteOf(val, 0)
    ensures ByteOf(Merged(data, 2, val, 2), 3) == ByteOf(val, 1)
  {
  }

  // Merging replaces the bytes of the access and no others.
  lemma MergedByte(data: bv32, lane: Lane, val: bv32, width: Width, other: Lane)
    requires width == 2 ==> lane == 0 || lane == 2
    requires width == 4 ==> lane == 0
    requires Fits(val, width)
    ensures ByteOf(Merged(data, lane, val, width), other)
         == if lane <= other < lane + width then ByteOf(val, other - lane) else ByteOf(data, other)
  {
    hide ByteOf, Merged;
    if
    case width == 1 && lane == 0 => MergeByte0(data, val);
    case width == 1 && lane == 1 => MergeByte1(data, val);
    case width == 1 && lane == 2 => MergeByte2(data, val);
    case width == 1 && lane == 3 => MergeByte3(data, val);
    case width == 2 && lane == 0 => MergeHalf0(data, val);
    case width == 2 && lane == 2 => MergeHalf2(data, val);
    case width == 4 => MergeWord(data, val);
  }

  lemma MergeWord(data: bv32, val: bv32)
    ensures Merged(data, 0, val, 4) == val
  {
  }

  // ----- reads and writes are those of the byte memory -----

  // The byte memory holds what the words hold, at every plain offset.
  ghost predicate Simulates(buses: seq<Option<Bridge>>, words: Words, m: Bytes)
  {
    forall tag, off :: Plain(buses, tag, off) ==> ByteAt(words, tag, off) == m(tag, off)
  }

  // An access that stays within plain offsets.
  predicate PlainAccess(buses: seq<Option<Bridge>>, tag: Tag, reg: bv64, width: Width)
  {
    Aligned(reg, width) && Plain(buses, tag, reg)
  }

  // The lanes of an access below 0x100.
  lemma LaneSteps(reg: bv64, width: Width)
    requires Aligned(reg, width) && reg < 0x100
    ensures width == 2 ==>
              && (LaneOf(reg) == 0 || LaneOf(reg) == 2) && LaneOf(reg + 1) == LaneOf(reg) + 1
              && WordOf(reg + 1) == WordOf(reg) && reg + 1 < 0x100
    ensures width == 4 ==>
              && LaneOf(reg) == 0 && LaneOf(reg + 1) == 1 && LaneOf(reg + 2) == 2 && LaneOf(reg + 3) == 3
              && WordOf(reg + 1) == WordOf(reg + 2) == WordOf(reg + 3) == WordOf(reg) && reg + 3 < 0x100
              && reg + 1 < 0x100 && reg + 2 < 0x100
  {
  }

  lemma WordFacts(reg: bv64)
    requires reg < 0x100
    ensures WordOf(reg) < 0x100 && WordOf(reg) & 3 == 0 && WordOf(WordOf(reg)) == WordOf(reg)
    ensures LaneOf(WordOf(reg)) == 0
    ensures reg == 8 ==> WordOf(reg) == 8
  {
  }

  lemma ReadPlain(buses: seq<Option<Bridge>>, words: Words, tag: Tag, reg: bv64, width: Width)
    requires PlainAccess(buses, tag, reg, width)
    ensures ReadN(words, buses, tag, reg, width)
         == Extract(words(ReadAddress(tag, WordOf(reg))), LaneOf(reg), width)
  {
  }

  /** A read returns the little-endian value of the byte memory. */
  lemma ReadRefines(buses: seq<Option<Bridge>>, words: Words, m: Bytes, tag: Tag, reg: bv64, width: Width)
    requires Simulates(buses, words, m) && PlainAccess(buses, tag, reg, width)
    ensures ReadN(words, buses, tag, reg, width) == BytesRead(m, tag, reg, width)
  {
    hide ReadAddress, Extract, LaneOf, WordOf, Plain, ReadN, ByteOf, ByteAt, Simulates, Aligned, Joined;
    ReadPlain(buses, words, tag, reg, width);
    AccessOffsets(buses, tag, reg, width);
    ExtractIsBytes(words(ReadAddress(tag, WordOf(reg))), LaneOf(reg), width);
    PlainByte(buses, words, m, tag, reg);
    if width == 2 {
      PlainByte(buses, words, m, tag, reg + 1);
    } else if width == 4 {
      PlainByte(buses, words, m, tag, reg + 1);
      PlainByte(buses, words, m, tag, reg + 2);
      PlainByte(buses, words, m, tag, reg + 3);
    }
  }

  lemma PlainByte(buses: seq<Option<Bridge>>, words: Words, m: Bytes, tag: Tag, off: bv64)
    requires Simulates(buses, words, m) && Plain(buses, tag, off)
    ensures m(tag, off) == ByteOf(words(ReadAddress(tag, WordOf(off))), LaneOf(off))
  {
  }

  // Every offset of a plain access is plain, in one word, one lane after another.
  lemma AccessOffsets(buses: seq<Option<Bridge>>, tag: Tag, reg: bv64, width: Width)
    requires PlainAccess(buses, tag, reg, width)
    ensures width == 2 ==> LaneOf(reg) == 0 || LaneOf(reg) == 2
    ensures width == 4 ==> LaneOf(reg) == 0
    ensures width >= 2 ==> InAccess(buses, tag, reg, reg + 1, LaneOf(reg) + 1)
    ensures width == 4 ==> InAccess(buses, tag, reg, reg + 2, 2) && InAccess(buses, tag, reg, reg + 3, 3)
  {
    LaneSteps(reg, width);
    hide LaneOf, WordOf, Aligned, Reachable, Hidden, FixedClass;
  }

  predicate InAccess(buses: seq<Option<Bridge>>, tag: Tag, reg: bv64, off: bv64, lane: int)
  {
    Plain(buses, tag, off) && WordOf(off) == WordOf(reg) && LaneOf(off) == lane
  }

  lemma SameFunctionAddress(tag: Tag, tag': Tag, reg: bv64)
    requires SameFunction(tag, tag')
    ensures ReadAddress(tag, reg) == ReadAddress(tag', reg)
  {
  }

  lemma WritePlain(buses: seq<Option<Bridge>>, words: Words, tag: Tag, reg: bv64, val: bv32, width: Width)
    requires PlainAccess(buses, tag, reg, width)
    ensures WriteN(words, buses, tag, reg, val, width)
         == Stored(words, ReadAddress(tag, WordOf(reg)),
                   Merged(words(ReadAddress(tag, WordOf(reg))), LaneOf(reg), val, width))
  {
    WordFacts(reg);
    WordAccess(buses, words, tag, reg);
    BelowIsSame(tag, WordOf(reg));
    hide ReadAddress, WriteAddress, LaneOf, WordOf, Hidden, FixedClass, Reachable, ReadN, Stored, Merged;
  }

  lemma WordAccess(buses: seq<Option<Bridge>>, words: Words, tag: Tag, reg: bv64)
    requires Plain(buses, tag, reg)
    ensures ReadN(words, buses, tag, WordOf(reg), 4) == words(ReadAddress(tag, WordOf(reg)))
  {
  }

  lemma BelowIsSame(tag: Tag, reg: bv64)
    requires reg < 0x100
    ensures WriteAddress(tag, reg) == ReadAddress(tag, reg)
  {
  }

  // A byte of the written word.
  lemma HitByte(buses: seq<Option<Bridge>>, words: Words, m: Bytes, tag: Tag, reg: bv64, val: bv32, width: Width,
                tag': Tag, off: bv64)
    requires Simulates(buses, words, m) && PlainAccess(buses, tag, reg, width) && Fits(val, width)
    requires Plain(buses, tag', off) && SameFunction(tag, tag') && WordOf(off) == WordOf(reg)
    ensures ByteAt(WriteN(words, buses, tag, reg, val, width), tag', off)
         == BytesWritten(m, tag, reg, val, width)(tag', off)
  {
    hide ReadAddress, LaneOf, WordOf, Plain, WriteN, ByteOf, ByteAt, Merged, Covers, Simulates, Aligned, Fits, ReadN, SameFunction;
    BelowBound(buses, tag, reg, width);
    BelowBound(buses, tag', off, 1);
    HitWord(buses, words, tag, reg, val, width, tag', off);
    CoveredLanes(reg, width, off);
    AccessOffsets(buses, tag, reg, width);
    PlainByte(buses, words, m, tag', off);
    SameFunctionAddress(tag, tag', WordOf(reg));
    MergedByte(words(ReadAddress(tag, WordOf(reg))), LaneOf(reg), val, width, LaneOf(off));
  }

  lemma HitWord(buses: seq<Option<Bridge>>, words: Words, tag: Tag, reg: bv64, val: bv32, width: Width,
                tag': Tag, off: bv64)
    requires PlainAccess(buses, tag, reg, width) && SameFunction(tag, tag') && WordOf(off) == WordOf(reg)
    ensures ByteAt(WriteN(words, buses, tag, reg, val, width), tag', off)
         == ByteOf(Merged(words(ReadAddress(tag, WordOf(reg))), LaneOf(reg), val, width), LaneOf(off))
  {
    hide ReadAddress, LaneOf, WordOf, Plain, WriteN, ByteOf, Merged, Aligned, SameFunction;
    SameFunctionAddress(tag, tag', WordOf(reg));
    WritePlain(buses, words, tag, reg, val, width);
  }

  // A byte of another word.
  lemma MissByte(buses: seq<Option<Bridge>>, words: Words, m: Bytes, tag: Tag, reg: bv64, val: bv32, width: Width,
                 tag': Tag, off: bv64)
    requires Simulates(buses, words, m) && PlainAccess(buses, tag, reg, width)
    requires Plain(buses, tag', off) && !(SameFunction(tag, tag') && WordOf(off) == WordOf(reg))
    ensures ByteAt(WriteN(words, buses, tag, reg, val, width), tag', off)
         == BytesWritten(m, tag, reg, val, width)(tag', off)
  {
    BelowBound(buses, tag, reg, width);
    BelowBound(buses, tag', off, 1);
    hide ReadAddress, LaneOf, WordOf, Plain, WriteN, ByteOf, Merged, Covers, Simulates, Aligned, Bus, Device, Func;
    WritePlain(buses, words, tag, reg, val, width);
    CoveredLanes(reg, width, off);
    PlainByte(buses, words, m, tag', off);
    if ReadAddress(tag, WordOf(reg)) == ReadAddress(tag', WordOf(off)) {
      NoAliasing(tag, WordOf(reg), tag', WordOf(off));
      assert false;
    }
  }

  lemma BelowBound(buses: seq<Option<Bridge>>, tag: Tag, reg: bv64, width: Width)
    requires Plain(buses, tag, reg)
    ensures reg < 0x100 && WordOf(reg) < 0x100
  {
  }

  /** A write changes exactly the bytes of the access, in the little-endian order. */
  lemma WriteRefines(buses: seq<Option<Bridge>>, words: Words, m: Bytes, tag: Tag, reg: bv64, val: bv32, width: Width)
    requires Simulates(buses, words, m) && PlainAccess(buses, tag, reg, width) && Fits(val, width)
    ensures Simulates(buses, WriteN(words, buses, tag, reg, val, width), BytesWritten(m, tag, reg, val, width))
  {
    hide Plain, WriteN, ByteAt, BytesWritten, SameFunction, WordOf, Aligned;
    forall tag', off | Plain(buses, tag', off)
      ensures ByteAt(WriteN(words, buses, tag, reg, val, width), tag', off)
           == BytesWritten(m, tag, reg, val, width)(tag', off)
    {
      if SameFunction(tag, tag') && WordOf(off) == WordOf(reg) {
        HitByte(buses, words, m, tag, reg, val, width, tag', off);
      } else {
        MissByte(buses, words, m, tag, reg, val, width, tag', off);
      }
    }
  }

  // ----- whole sequences of accesses -----

  datatype Access = Read(tag: Tag, reg: bv64, width: Width) | Write(tag: Tag, reg: bv64, width: Width, val: bv32)

  predicate PlainStep(buses: seq<Option<Bridge>>, a: Access)
  {
    PlainAccess(buses, a.tag, a.reg, a.width) && (a.Write? ==> Fits(a.val, a.width))
  }

  // What the reads of a sequence return, on the hardware words ...
  function Outputs(buses: seq<Option<Bridge>>, words: Words, accesses: seq<Access>): seq<bv32>
  {
    if accesses == [] then []
    else
      match accesses[0]
      case Read(tag, reg, width) =>
        [ReadN(words, buses, tag, reg, width)] + Outputs(buses, words, accesses[1..])
      case Write(tag, reg, width, val) =>
        Outputs(buses, WriteN(words, buses, tag, reg, val, width), accesses[1..])
  }

  // ... and on the byte memory.
  function ByteOutputs(m: Bytes, accesses: seq<Access>): seq<bv32>
  {
    if accesses == [] then []
    else
      match accesses[0]
      case Read(tag, reg, width) => [BytesRead(m, tag, reg, width)] + ByteOutputs(m, accesses[1..])
      case Write(tag, reg, width, val) => ByteOutputs(BytesWritten(m, tag, reg, val, width), accesses[1..])
  }

  /** Every sequence of byte, halfword and word accesses returns what a little-endian byte
      memory would. */
  lemma {:induction false} SequenceRefines(buses: seq<Option<Bridge>>, words: Words, m: Bytes, accesses: seq<Access>)
    requires Simulates(buses, words, m)
    requires forall i :: 0 <= i < |accesses| ==> PlainStep(buses, accesses[i])
    ensures Outputs(buses, words, accesses) == ByteOutputs(m, accesses)
    decreases |accesses|
  {
    hide Simulates, PlainAccess, ReadN, WriteN, BytesRead, BytesWritten;
    if accesses != [] {
      assert PlainStep(buses, accesses[0]);
      assert forall i :: 0 <= i < |accesses[1..]| ==> accesses[1..][i] == accesses[i + 1];
      match accesses[0]
      case Read(tag, reg, width) =>
        ReadRefines(buses, words, m, tag, reg, width);
        SequenceRefines(buses, words, m, accesses[1..]);
      case Write(tag, reg, width, val) =>
        WriteRefines(buses, words, m, tag, reg, val, width);
        SequenceRefines(buses, WriteN(words, buses, tag, reg, val, width), BytesWritten(m, tag, reg, val, width),
                        accesses[1..]);
    }
  }

  /** The dedicated byte and halfword reads agree with the general one. */
  lemma NarrowReadsAgree(buses: seq<Option<Bridge>>, words: Words, tag: Tag, reg: bv64)
    requires Plain(buses, tag, reg)
    ensures Read8(words, buses, tag, reg) == ReadN(words, buses, tag, reg, 1)
    ensures Aligned(reg, 2) ==> Read16(words, buses, tag, reg) == ReadN(words, buses, tag, reg, 2)
  {
    hide ReadN, ReadAddress, WordOf, Plain, Aligned, LaneOf, HalfOf, Extract;
    BelowBound(buses, tag, reg, 1);
    NarrowWord(reg);
    WordAccess(buses, words, tag, reg);
    ReadPlain(buses, words, tag, reg, 1);
    if Aligned(reg, 2) {
      ReadPlain(buses, words, tag, reg, 2);
    }
  }

  /** Unlike the general read, they only see the low eight bits of the register (less the
      lowest for a halfword): above 0xff they read the first 256 bytes again. */
  lemma NarrowReadsWrap(buses: seq<Option<Bridge>>, words: Words, tag: Tag, reg: bv64)
    ensures Read8(words, buses, tag, reg) == Read8(words, buses, tag, reg & 0xff)
    ensures Read16(words, buses, tag, reg) == Read16(words, buses, tag, reg & 0xfe)
  {
    hide ReadN, Extract;
    assert reg & 0xfc == (reg & 0xff) & 0xfc == (reg & 0xfe) & 0xfc;
    assert LaneOf(reg) == LaneOf(reg & 0xff) && HalfOf(reg) == HalfOf(reg & 0xfe);
  }

  // Words that tell the two kinds of read apart: all ones where the general read looks.
  function Telling(tag: Tag, reg: bv64): Words
  {
    Stored(_ => 0, ReadAddress(tag, WordOf(reg)), 0xffffffff)
  }

  // From 0x100 on, the word the narrow reads look at is another one.
  lemma OtherWord(tag: Tag, reg: bv64)
    requires 0x100 <= reg < 0x1000
    ensures ReadAddress(tag, reg & 0xfc) != ReadAddress(tag, WordOf(reg))
  {
    hide Base, Select;
    OtherAddress(Base(tag), Select(tag), reg);
    SelectBits(tag);
  }

  lemma SelectBits(tag: Tag)
    ensures Select(tag) & 0xf000000 == 0 && Base(tag) & 0xf000000 == 0
  {
  }

  lemma OtherAddress(base: bv64, select: bv64, reg: bv64)
    requires 0x100 <= reg < 0x1000
    ensures base & 0xf000000 == 0 && select & 0xf000000 == 0 ==>
              AddressOf(base, select, reg & 0xfc) != AddressOf(base, select, WordOf(reg))
  {
  }

  // What a narrow read returns has no more bits than its width.
  lemma NarrowFits(buses: seq<Option<Bridge>>, words: Words, tag: Tag, reg: bv64)
    ensures Read8(words, buses, tag, reg) <= 0xff && Read16(words, buses, tag, reg) <= 0xffff
  {
    hide ReadN, ToRight;
  }

  // The fixed class code has neither a byte nor a halfword of all ones.
  lemma FixedParts(lane: Lane)
    ensures Extract(0x06040001, lane, 1) != 0xff && Extract(0x06040001, if lane < 2 then 0 else 2, 2) != 0xffff
    ensures Extract(0, lane, 1) == 0 && Extract(0, lane, 2) == 0
    ensures Extract(0xffffffff, lane, 1) == 0xff
    ensures lane == 0 || lane == 2 ==> Extract(0xffffffff, lane, 2) == 0xffff
  {
  }

  lemma LowWord(buses: seq<Option<Bridge>>, words: Words, tag: Tag, reg: bv64)
    requires Reachable(buses, tag) && !Hidden(tag)
    ensures ReadN(words, buses, tag, reg & 0xfc, 4)
         == if FixedClass(tag) && reg & 0xfc == 8 then 0x06040001 else words(ReadAddress(tag, reg & 0xfc))
  {
    hide ReadAddress, Reachable, Hidden, FixedClass, LaneOf;
    assert WordOf(reg & 0xfc) == reg & 0xfc && !BadRegister(reg & 0xfc, 4);
  }

  // What the narrow reads see of a word that is zero or fixed is never all ones.
  lemma NarrowMisses(buses: seq<Option<Bridge>>, tag: Tag, reg: bv64)
    requires reg < 0x1000 && !Plain(buses, tag, reg) && Reachable(buses, tag) && !Hidden(tag)
    ensures Read8(Telling(tag, reg), buses, tag, reg) != 0xff
    ensures Read16(Telling(tag, reg), buses, tag, reg) != 0xffff
  {
    hide ReadAddress, Reachable, Hidden, FixedClass, ReadN, Extract, WordOf;
    LowWord(buses, Telling(tag, reg), tag, reg);
    FixedParts(LaneOf(reg));
    FixedParts(HalfOf(reg));
    if reg >= 0x100 {
      OtherWord(tag, reg);
    } else {
      NarrowWord(reg);
    }
  }

  lemma GeneralHits(buses: seq<Option<Bridge>>, tag: Tag, reg: bv64, width: Width)
    requires width < 4 && (width == 2 ==> Aligned(reg, 2))
    requires !BadRegister(reg, width) && Reachable(buses, tag) && !Hidden(tag) && !(FixedClass(tag) && reg == 8)
    ensures ReadN(Telling(tag, reg), buses, tag, reg, width) == Ones(width)
  {
    hide ReadAddress, Reachable, Hidden, FixedClass, WordOf, BadRegister, Extract;
    FixedParts(LaneOf(reg));
  }

  lemma ErrorValue(buses: seq<Option<Bridge>>, words: Words, tag: Tag, reg: bv64, width: Width)
    requires BadRegister(reg, width) || !Reachable(buses, tag) || Hidden(tag) || (FixedClass(tag) && reg == 8)
    ensures ReadN(words, buses, tag, reg, width) > 0xffff
  {
    hide BadRegister, Reachable, Hidden, FixedClass, ReadAddress, Extract;
  }

  lemma NarrowReadsTold(buses: seq<Option<Bridge>>, tag: Tag, reg: bv64, width: Width)
    requires !Plain(buses, tag, reg) && width < 4
    ensures var words := Telling(tag, reg);
            (if width == 1 then Read8(words, buses, tag, reg) else Read16(words, buses, tag, reg))
            != ReadN(words, buses, tag, reg, width)
  {
    hide Reachable, Hidden, FixedClass, Read8, Read16, ReadN, Telling, Plain;
    var words := Telling(tag, reg);
    NarrowFits(buses, words, tag, reg);
    if BadRegister(reg, width) || !Reachable(buses, tag) || Hidden(tag) || (FixedClass(tag) && reg == 8) {
      ErrorValue(buses, words, tag, reg, width);
    } else {
      NarrowMisses(buses, tag, reg);
      GeneralHits(buses, tag, reg, width);
    }
  }

  /** The dedicated reads agree with the general one, whatever the words, exactly at plain
      offsets, and for a halfword at even ones: not from 0x100 on, not in the fixed class code,
      and not on a function that is hidden or cannot be reached, of which they return the low
      bits of the error value. */
  lemma NarrowReadsExact(buses: seq<Option<Bridge>>, tag: Tag, reg: bv64)
    ensures (forall words :: Read8(words, buses, tag, reg) == ReadN(words, buses, tag, reg, 1)) <==> Plain(buses, tag, reg)
    ensures (forall words :: Read16(words, buses, tag, reg) == ReadN(words, buses, tag, reg, 2))
       <==> Plain(buses, tag, reg) && Aligned(reg, 2)
  {
    hide Plain, Read8, Read16, ReadN, Aligned, Telling;
    if Plain(buses, tag, reg) {
      forall words
        ensures Read8(words, buses, tag, reg) == ReadN(words, buses, tag, reg, 1)
        ensures Aligned(reg, 2) ==> Read16(words, buses, tag, reg) == ReadN(words, buses, tag, reg, 2)
      {
        NarrowReadsAgree(buses, words, tag, reg);
      }
      if !Aligned(reg, 2) {
        OddHalfword(buses, Telling(tag, reg), tag, reg);
      }
    } else {
      NarrowReadsTold(buses, tag, reg, 1);
      NarrowReadsTold(buses, tag, reg, 2);
    }
  }

  lemma OddHalfword(buses: seq<Option<Bridge>>, words: Words, tag: Tag, reg: bv64)
    requires !Aligned(reg, 2)
    ensures Read16(words, buses, tag, reg) != ReadN(words, buses, tag, reg, 2)
  {
    hide Read16;
    NarrowFits(buses, words, tag, reg);
  }

  lemma NarrowWord(reg: bv64)
    requires reg < 0x100
    ensures reg & 0xfc == WordOf(reg) && Aligned(reg, 1)
    ensures Aligned(reg, 2) ==> HalfOf(reg) == LaneOf(reg)
  {
  }

  // ----- at and above 0x100 -----

  /** A word written at a register below 0x1000 is read back exactly when the register's bits
      8 to 11 are already set in the tag; otherwise the read does not see the write at all. */
  lemma WordReadBack(buses: seq<Option<Bridge>>, words: Words, tag: Tag, reg: bv64, val: bv32)
    requires reg < 0x1000 && WordOf(reg) == reg && Reachable(buses, tag) && !Hidden(tag) && !(FixedClass(tag) && reg == 8)
    ensures ReadN(WriteN(words, buses, tag, reg, val, 4), buses, tag, reg, 4)
         == if reg & 0xf00 & Select(tag) == reg & 0xf00 then val else ReadN(words, buses, tag, reg, 4)
  {
    SameAddress(tag, reg);
    AlignedRegister(reg);
    hide ReadAddress, WriteAddress, WordOf, Reachable, Hidden, FixedClass, Select, LaneOf;
  }

  lemma AlignedRegister(reg: bv64)
    requires WordOf(reg) == reg
    ensures Aligned(reg, 4)
  {
  }
}
