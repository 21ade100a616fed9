/**
 Where configuration accesses go and when they are refused, in numbers: the hardware addresses of
 the two windows, the functions that are never read, and the devices behind a root port.
 */
module PciWindows {
  import opened Wrappers
  import opened PciConfig
  import opened PciBytes

  // ----- addresses -----

  /** The address of a word, all 64 bits of it: on bus 0 in the first window, on the others in the
      second, with bus, device, function and the low register bits side by side, and the register's
      bits 8 to 11 from bit 24 on. */
  lemma AddressOfFunction(bus: bv64, device: bv64, func: bv64, reg: bv64)
    requires bus <= 255 && device <= 31 && func <= 7 && reg < 0x1000
    ensures var a := ReadAddress(MakeTag(bus, device, func), reg);
            && a & 0xfffffffff0000000 == (if bus == 0 then 0x900000fe00000000 else 0x900000fe10000000)
            && (a >> 24) & 0xf == reg >> 8 && (a >> 16) & 0xff == bus && (a >> 11) & 0x1f == device
            && (a >> 8) & 7 == func && a & 0xff == reg & 0xff
  {
    TagRoundTrip(bus, device, func);
    hide Bus, Device, Func, MakeTag, AddressOf;
    var base := if bus == 0 then TYPE0_BASE else TYPE1_BASE;
    TopBits(base, bus, device, func, reg);
    MiddleBits(base, bus, device, func, reg);
    LowBits(base, bus, device, func, reg);
  }

  lemma TopBits(base: bv64, bus: bv64, device: bv64, func: bv64, reg: bv64)
    requires base & 0xfffffff == 0 && bus <= 255 && device <= 31 && func <= 7 && reg < 0x1000
    ensures AddressOf(base, MakeTag(bus, device, func), reg) & 0xfffffffff0000000 == base
    ensures (AddressOf(base, MakeTag(bus, device, func), reg) >> 24) & 0xf == reg >> 8
  {
  }

  lemma MiddleBits(base: bv64, bus: bv64, device: bv64, func: bv64, reg: bv64)
    requires base & 0xfffffff == 0 && bus <= 255 && device <= 31 && func <= 7 && reg < 0x1000
    ensures (AddressOf(base, MakeTag(bus, device, func), reg) >> 16) & 0xff == bus
    ensures (AddressOf(base, MakeTag(bus, device, func), reg) >> 11) & 0x1f == device
  {
  }

  lemma LowBits(base: bv64, bus: bv64, device: bv64, func: bv64, reg: bv64)
    requires base & 0xfffffff == 0 && func <= 7 && reg < 0x1000
    ensures (AddressOf(base, MakeTag(bus, device, func), reg) >> 8) & 7 == func
    ensures AddressOf(base, MakeTag(bus, device, func), reg) & 0xff == reg & 0xff
  {
  }

  // An address of the window of a bus, below 0x100 of every function.
  predicate InWindow(bus: bv64, a: bv64)
  {
    if bus == 0 then 0x900000fe00000000 <= a < 0x900000fe00010000
    else 0x900000fe10000000 <= a < 0x900000fe11000000
  }

  lemma AddressInWindow(tag: Tag, reg: bv64)
    requires reg < 0x100
    ensures InWindow(Bus(tag), ReadAddress(tag, reg)) && InWindow(Bus(tag), WriteAddress(tag, reg))
  {
  }

  /** A read looks at no word outside its bus's window. */
  lemma ReadStaysInWindow(buses: seq<Option<Bridge>>, words: Words, words': Words, tag: Tag, reg: bv64, width: Width)
    requires reg < 0x100 && forall a :: InWindow(Bus(tag), a) ==> words(a) == words'(a)
    ensures ReadN(words, buses, tag, reg, width) == ReadN(words', buses, tag, reg, width)
  {
    hide ReadAddress, WriteAddress, InWindow, Bus, Extract, Reachable, Hidden, FixedClass;
    WordFacts(reg);
    AddressInWindow(tag, WordOf(reg));
  }

  /** A write changes no word outside it. */
  lemma WriteStaysInWindow(buses: seq<Option<Bridge>>, words: Words, tag: Tag, reg: bv64, val: bv32, width: Width, a: bv64)
    requires reg < 0x100 && !InWindow(Bus(tag), a)
    ensures WriteN(words, buses, tag, reg, val, width)(a) == words(a)
  {
    hide ReadAddress, WriteAddress, InWindow, Bus, Merged, Reachable, ReadN;
    WordFacts(reg);
    AddressInWindow(tag, WordOf(reg));
  }

  // ----- what is read, function by function -----

  // The bits of a word that a read at a register is about.
  function BitsAt(word: bv32, reg: bv64, width: Width): bv32
  {
    if width == 1 then Shifted(word, reg) & 0xff else if width == 2 then Shifted(word, reg) & 0xffff else word
  }

  function Shifted(word: bv32, reg: bv64): bv32
  {
    if reg & 3 == 0 then word else if reg & 3 == 1 then word >> 8 else if reg & 3 == 2 then word >> 16 else word >> 24
  }

  lemma ShiftRule(word: bv32, reg: bv64)
    ensures ToRight(word, LaneOf(reg)) == Shifted(word, reg)
  {
  }

  lemma ExtractRule(word: bv32, reg: bv64, width: Width)
    ensures Extract(word, LaneOf(reg), width) == BitsAt(word, reg, width)
  {
    hide ToRight, LaneOf, Shifted;
    ShiftRule(word, reg);
  }

  // Not aligned, or beyond the configuration space.
  predicate Misplaced(reg: bv64, width: Width)
  {
    reg >= 0x1000 || (width == 2 && reg & 1 != 0) || (width == 4 && reg & 3 != 0)
  }

  lemma MisplacedRule(reg: bv64, width: Width)
    ensures BadRegister(reg, width) <==> Misplaced(reg, width)
  {
  }

  /** On bus 0: device 2 is all ones, the class code word of devices 9 to 14 is fixed whatever the
      width, a register that is not aligned or not below 0x1000 is all ones, and everything else is
      the bits of the hardware word. */
  lemma OnBoardRead(buses: seq<Option<Bridge>>, words: Words, device: bv64, func: bv64, reg: bv64, width: Width)
    requires device <= 31 && func <= 7
    ensures var tag := MakeTag(0, device, func);
            ReadN(words, buses, tag, reg, width)
            == if Misplaced(reg, width) then 0xffffffff
               else if device == 2 then 0xffffffff
               else if 9 <= device <= 14 && reg == 8 then 0x06040001
               else BitsAt(words(ReadAddress(tag, reg & 0xffc)), reg, width)
  {
    TagRoundTrip(0, device, func);
    MisplacedRule(reg, width);
    ExtractRule(words(ReadAddress(MakeTag(0, device, func), WordOf(reg))), reg, width);
    hide MakeTag, ReadAddress, Bus, Device, Func, Extract, BitsAt, BadRegister, Misplaced, LaneOf;
  }

  /** Behind other buses: below a root port only device 0 is there, the rest is all ones. */
  lemma OffBoardRead(buses: seq<Option<Bridge>>, words: Words, bus: bv64, device: bv64, func: bv64, reg: bv64, width: Width)
    requires 0 < bus <= 255 && device <= 31 && func <= 7
    ensures var tag := MakeTag(bus, device, func);
            ReadN(words, buses, tag, reg, width)
            == if Misplaced(reg, width) then 0xffffffff
               else if RootPortFrom(buses, bus, 1) && device > 0 then 0xffffffff
               else BitsAt(words(ReadAddress(tag, reg & 0xffc)), reg, width)
  {
    TagRoundTrip(bus, device, func);
    MisplacedRule(reg, width);
    ExtractRule(words(ReadAddress(MakeTag(bus, device, func), WordOf(reg))), reg, width);
    hide MakeTag, ReadAddress, Bus, Device, Func, RootPortFrom, Extract, BitsAt, BadRegister, Misplaced, LaneOf;
  }

  /** A refused write changes nothing. */
  lemma RefusedWrite(buses: seq<Option<Bridge>>, words: Words, bus: bv64, device: bv64, func: bv64, reg: bv64, val: bv32, width: Width)
    requires bus <= 255 && device <= 31 && func <= 7
    requires Misplaced(reg, width) || (bus > 0 && RootPortFrom(buses, bus, 1) && device > 0)
    ensures WriteN(words, buses, MakeTag(bus, device, func), reg, val, width) == words
  {
    TagRoundTrip(bus, device, func);
    MisplacedRule(reg, width);
    hide MakeTag, WriteAddress, BadRegister, Misplaced, ReadN, Bus, Device, Func, RootPortFrom;
  }

  /** The first entry of the bus table for a bus decides, and a missing entry before it hides it: a
      root port is a bridge on bus 0 or one of that type. */
  lemma {:induction false} RootPortRule(buses: seq<Option<Bridge>>, bus: bv64, from: nat)
    ensures RootPortFrom(buses, bus, from)
       <==> exists i :: from <= i < |buses| && Decides(buses, bus, from, i)
                        && (buses[i].value.primary == 0 || buses[i].value.rootPort)
    decreases |buses| - from
  {
    if from < |buses| && buses[from].Some? {
      if buses[from].value.secondary == bus {
        assert Decides(buses, bus, from, from);
      } else {
        RootPortRule(buses, bus, from + 1);
        assert forall i :: from < i < |buses| ==> (Decides(buses, bus, from, i) <==> Decides(buses, bus, from + 1, i));
      }
    }
  }

  predicate Decides(buses: seq<Option<Bridge>>, bus: bv64, from: nat, i: nat)
    requires i < |buses|
  {
    && (forall j :: from <= j <= i ==> buses[j].Some?)
    && (forall j :: from <= j < i ==> buses[j].value.secondary != bus)
    && (from <= i ==> buses[i].value.secondary == bus)
  }
}
