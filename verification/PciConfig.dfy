/**
 PCI configuration accesses: bytes and halfwords emulated by read-modify-write of the
 32-bit words that a packed bus/device/function tag selects.
 */
module PciConfig {
  import opened Wrappers

  // ----- tags and addresses -----

  type Tag = bv64

  function MakeTag(bus: bv64, device: bv64, func: bv64): Tag
  {
    (bus << 16) | (device << 11) | (func << 8)
  }

  function Bus(tag: Tag): bv64
  {
    (tag >> 16) & 255
  }

  function Device(tag: Tag): bv64
  {
    (tag >> 11) & 31
  }

  function Func(tag: Tag): bv64
  {
    (tag >> 8) & 7
  }

  /** Tags and bus/device/function triples determine each other. */
  lemma TagRoundTrip(bus: bv64, device: bv64, func: bv64)
    requires bus <= 255 && device <= 31 && func <= 7
    ensures Bus(MakeTag(bus, device, func)) == bus
    ensures Device(MakeTag(bus, device, func)) == device
    ensures Func(MakeTag(bus, device, func)) == func
  {
  }

  const TYPE0_BASE: bv64 := 0x900000fe00000000
  const TYPE1_BASE: bv64 := 0x900000fe10000000

  // The bits of a word's address that select bus, device and function.
  function Select(tag: Tag): bv64
  {
    MakeTag(Bus(tag), Device(tag), Func(tag))
  }

  function Base(tag: Tag): bv64
  {
    if Bus(tag) == 0 then TYPE0_BASE else TYPE1_BASE
  }

  // Where a configuration word is read.
  function ReadAddress(tag: Tag, reg: bv64): bv64
  {
    AddressOf(Base(tag), Select(tag), reg)
  }

  function AddressOf(base: bv64, select: bv64, reg: bv64): bv64
  {
    base | select | (reg & 0xff) | (if reg > 0xff then ((reg >> 8) & 0xf) << 24 else 0)
  }

  // Where it is written: the source ORs the unmasked register in once more.
  function WriteAddress(tag: Tag, reg: bv64): bv64
  {
    ReadAddress(tag, reg) | (Select(tag) | reg)
  }

  /** A word is written where it is read exactly when the register's bits 8 to 11 are already
      set in the tag; below 0x100 that is always so. */
  lemma SameAddress(tag: Tag, reg: bv64)
    requires reg < 0x1000
    ensures WriteAddress(tag, reg) == ReadAddress(tag, reg) <==> reg & 0xf00 & Select(tag) == reg & 0xf00
  {
  }

  // Below 0x100 the fields of an address do not overlap.
  lemma LowFields(base: bv64, bus: bv64, device: bv64, func: bv64, reg: bv64)
    requires base & 0xffffff == 0 && func <= 7 && reg < 0x100
    ensures AddressOf(base, MakeTag(bus, device, func), reg) & 0xff == reg
    ensures (AddressOf(base, MakeTag(bus, device, func), reg) >> 8) & 7 == func
  {
  }

  lemma HighFields(base: bv64, bus: bv64, device: bv64, func: bv64, reg: bv64)
    requires base & 0xffffff == 0 && bus <= 255 && device <= 31 && func <= 7 && reg < 0x100
    ensures (AddressOf(base, MakeTag(bus, device, func), reg) >> 11) & 31 == device
    ensures (AddressOf(base, MakeTag(bus, device, func), reg) >> 16) & 255 == bus
  {
  }

  lemma FieldsFit(tag: Tag)
    ensures Bus(tag) <= 255 && Device(tag) <= 31 && Func(tag) <= 7 && Base(tag) & 0xffffff == 0
  {
  }

  // Each field of a tag can be read off a word's address.
  lemma AddressFields(tag: Tag, reg: bv64)
    requires reg < 0x100
    ensures ReadAddress(tag, reg) & 0xff == reg
    ensures (ReadAddress(tag, reg) >> 8) & 7 == Func(tag)
    ensures (ReadAddress(tag, reg) >> 11) & 31 == Device(tag)
    ensures (ReadAddress(tag, reg) >> 16) & 255 == Bus(tag)
  {
    hide Bus, Device, Func, Base, MakeTag, AddressOf;
    FieldsFit(tag);
    LowFields(Base(tag), Bus(tag), Device(tag), Func(tag), reg);
    HighFields(Base(tag), Bus(tag), Device(tag), Func(tag), reg);
  }

  /** Different functions or different words below 0x100 never share an address. */
  lemma NoAliasing(tag: Tag, reg: bv64, tag': Tag, reg': bv64)
    requires reg < 0x100 && reg' < 0x100
    requires ReadAddress(tag, reg) == ReadAddress(tag', reg')
    ensures reg == reg' && SameFunction(tag, tag')
  {
    AddressFields(tag, reg);
    AddressFields(tag', reg');
    hide ReadAddress;
  }

  predicate SameFunction(tag: Tag, tag': Tag)
  {
    Bus(tag) == Bus(tag') && Device(tag) == Device(tag') && Func(tag) == Func(tag')
  }

  // ----- bridges -----

  // An entry of the bus table: the bridge in front of a bus.
  datatype Bridge = Bridge(secondary: bv64, primary: bv64, rootPort: bool)

  // Entries from i on; a missing one ends the table, the first match decides.
  function RootPortFrom(buses: seq<Option<Bridge>>, bus: bv64, i: nat): bool
    decreases |buses| - i
  {
    if i >= |buses| || buses[i].None? then false
    else if buses[i].value.secondary == bus then buses[i].value.primary == 0 || buses[i].value.rootPort
    else RootPortFrom(buses, bus, i + 1)
  }

  method IsRootPort(buses: seq<Option<Bridge>>, bus: bv64) returns (r: bool)
    ensures r == (bus != 0 && RootPortFrom(buses, bus, 1))
  {
    if bus == 0 {
      return false;
    }
    var i := 1;
    while i < |buses|
      invariant i >= 1 && RootPortFrom(buses, bus, 1) == RootPortFrom(buses, bus, i)
    {
      if buses[i].None? {
        return false;
      }
      if buses[i].value.secondary == bus {
        return buses[i].value.primary == 0 || buses[i].value.rootPort;
      }
      i := i + 1;
    }
    r := false;
  }

  // Behind a root port only device 0 exists.
  predicate Reachable(buses: seq<Option<Bridge>>, tag: Tag)
  {
    Bus(tag) == 0 || !RootPortFrom(buses, Bus(tag), 1) || Device(tag) == 0
  }

  // ----- words and their bytes -----

  type Words = bv64 -> bv32

  type Width = w: int | w == 1 || w == 2 || w == 4 witness 1

  function WidthMask(width: Width): bv64
  {
    if width == 1 then 0 else if width == 2 then 1 else 3
  }

  // Every bit of a value of the given width.
  function Ones(width: Width): bv32
  {
    if width == 1 then 0xff else if width == 2 then 0xffff else 0xffffffff
  }

  // The byte lane of a register: reg & 3.
  type Lane = l: int | 0 <= l < 4

  function LaneOf(reg: bv64): Lane
  {
    if reg & 3 == 0 then 0 else if reg & 3 == 1 then 1 else if reg & 3 == 2 then 2 else 3
  }

  // w >> 8 * lane
  function ToRight(w: bv32, lane: Lane): bv32
  {
    if lane == 0 then w else if lane == 1 then w >> 8 else if lane == 2 then w >> 16 else w >> 24
  }

  // w << 8 * lane
  function ToLeft(w: bv32, lane: Lane): bv32
  {
    if lane == 0 then w else if lane == 1 then w << 8 else if lane == 2 then w << 16 else w << 24
  }

  function WordOf(reg: bv64): bv64
  {
    reg & 0xffc
  }

  predicate BadRegister(reg: bv64, width: Width)
  {
    reg & WidthMask(width) != 0 || reg >= 0x1000
  }

  // Bus 0 device 2 is never read.
  predicate Hidden(tag: Tag)
  {
    Bus(tag) == 0 && Device(tag) == 2
  }

  // The on-board PCIe ports report a fixed class code.
  predicate FixedClass(tag: Tag)
  {
    Bus(tag) == 0 && 9 <= Device(tag) <= 14
  }

  // ----- accesses -----

  function ReadN(words: Words, buses: seq<Option<Bridge>>, tag: Tag, reg: bv64, width: Width): bv32
  {
    if BadRegister(reg, width) || Hidden(tag) then 0xffffffff
    else if FixedClass(tag) && reg == 8 then 0x06040001
    else if !Reachable(buses, tag) then 0xffffffff
    else Extract(words(ReadAddress(tag, WordOf(reg))), LaneOf(reg), width)
  }

  // The bits of a word that an access of the given width at the register is about.
  function Extract(data: bv32, lane: Lane, width: Width): bv32
  {
    if width == 1 then ToRight(data, lane) & 0xff
    else if width == 2 then ToRight(data, lane) & 0xffff
    else data
  }

  // The word to store: the value itself, or the old word with some of its bytes replaced.
  function Merged(data: bv32, lane: Lane, val: bv32, width: Width): bv32
  {
    if width == 1 then (data & !ToLeft(0xff, lane)) | ToLeft(val, lane)
    else if width == 2 then (data & !ToLeft(0xffff, lane)) | ToLeft(val, lane)
    else val
  }

  function Stored(words: Words, addr: bv64, val: bv32): Words
  {
    a => if a == addr then val else words(a)
  }

  function WriteN(words: Words, buses: seq<Option<Bridge>>, tag: Tag, reg: bv64, val: bv32, width: Width): Words
  {
    if BadRegister(reg, width) || !Reachable(buses, tag) then words
    else Stored(words, WriteAddress(tag, WordOf(reg)), Merged(ReadN(words, buses, tag, WordOf(reg), 4), LaneOf(reg), val, width))
  }

  function Read8(words: Words, buses: seq<Option<Bridge>>, tag: Tag, reg: bv64): bv32
  {
    Extract(ReadN(words, buses, tag, reg & 0xfc, 4), LaneOf(reg), 1)
  }

  // reg & 2
  function HalfOf(reg: bv64): Lane
  {
    if reg & 2 == 0 then 0 else 2
  }

  function Read16(words: Words, buses: seq<Option<Bridge>>, tag: Tag, reg: bv64): bv32
  {
    Extract(ReadN(words, buses, tag, reg & 0xfc, 4), HalfOf(reg), 2)
  }

  /** The hardware words and the bus table; accesses update the words. */
  class ConfigSpace {
    var words: Words
    const buses: seq<Option<Bridge>>

    constructor (words: Words, buses: seq<Option<Bridge>>)
      ensures this.words == words && this.buses == buses
    {
      this.words, this.buses := words, buses;
    }

    method ConfReadN(tag: Tag, reg: bv64, width: Width) returns (data: bv32)
      ensures data == ReadN(words, buses, tag, reg, width)
    {
      hide ReadAddress, Extract, LaneOf, BadRegister, Hidden, FixedClass, Bus, Device, WordOf;
      if BadRegister(reg, width) {
        return 0xffffffff;
      }
      if Hidden(tag) {
        return 0xffffffff;
      }
      if FixedClass(tag) && reg == 8 {
        return 0x06040001;
      }
      if Bus(tag) != 0 {
        var behindRoot := IsRootPort(buses, Bus(tag));
        if behindRoot && Device(tag) != 0 {
          return 0xffffffff;
        }
      }
      data := Extract(words(ReadAddress(tag, WordOf(reg))), LaneOf(reg), width);
    }

    method ConfWriteN(tag: Tag, reg: bv64, val: bv32, width: Width)
      modifies this
      ensures words == WriteN(old(words), buses, tag, reg, val, width)
    {
      hide ReadAddress, WriteAddress, ToLeft, LaneOf, BadRegister, Bus, Device, WordOf, ReadN;
      if BadRegister(reg, width) {
        return;
      }
      if Bus(tag) != 0 {
        var behindRoot := IsRootPort(buses, Bus(tag));
        if behindRoot && Device(tag) != 0 {
          return;
        }
      }
      var data := val;
      if width != 4 {
        data := ConfReadN(tag, WordOf(reg), 4);
      }
      data := Merged(data, LaneOf(reg), val, width);
      words := Stored(words, WriteAddress(tag, WordOf(reg)), data);
    }
  }
}
