/** What the guest sees of a device's config space: each bit comes either from QEMU's
    emulated copy or from the device, as `emulated` says, and only emulated bits whose
    write mask allows it follow the guest's writes. */
module ConfigView {

  datatype ReadResult = Value(v: bv32) | ReadFailed

  // A guest write of len bytes.
  datatype Write = Write(addr: nat, val: bv32, len: nat)

  predicate ValidLength(len: nat) { len in {1, 2, 4} }

  /** The byte the guest should see, bit by bit. */
  function MergeByte(emulated: bv8, config: bv8, physical: bv8): bv8 {
    (config & emulated) | (physical & !emulated)
  }

  /** The same on a loaded value: what vfio_pci_read_config computes. */
  function MergeWord(emulated: bv32, config: bv32, physical: bv32): bv32 {
    Or(Keep(config, emulated), Clear(physical, emulated))
  }

  function Keep(x: bv32, mask: bv32): bv32 { x & mask }

  function Clear(x: bv32, mask: bv32): bv32 { x & !mask }

  function Or(x: bv32, y: bv32): bv32 { x | y }

  function Join2(b0: bv8, b1: bv8): bv32 {
    (b0 as bv32) | (b1 as bv32 << 8)
  }

  function Join4(b0: bv8, b1: bv8, b2: bv8, b3: bv8): bv32 {
    Halves(Join2(b0, b1), Join2(b2, b3))
  }

  function Halves(lo: bv32, hi: bv32): bv32 {
    lo | (hi << 16)
  }

  // Little-endian load of len bytes.
  function Load(mem: seq<bv8>, addr: nat, len: nat): bv32
    requires ValidLength(len) && addr + len <= |mem|
  {
    if len == 1 then mem[addr] as bv32
    else if len == 2 then Join2(mem[addr], mem[addr + 1])
    else Join4(mem[addr], mem[addr + 1], mem[addr + 2], mem[addr + 3])
  }

  function Byte0(val: bv32): bv8 { (val & 0xFF) as bv8 }

  function Byte1(val: bv32): bv8 { ((val >> 8) & 0xFF) as bv8 }

  function Byte2(val: bv32): bv8 { ((val >> 16) & 0xFF) as bv8 }

  function Byte3(val: bv32): bv8 { (val >> 24) as bv8 }

  function Byte(val: bv32, i: nat): bv8
    requires i < 4
  {
    if i == 0 then Byte0(val) else if i == 1 then Byte1(val) else if i == 2 then Byte2(val) else Byte3(val)
  }

  // All bits of a value of len bytes.
  function Ones(len: nat): bv32
    requires ValidLength(len)
  {
    if len == 1 then 0xFF else if len == 2 then 0xFFFF else 0xFFFF_FFFF
  }

  /** What the guest should see of the whole config space. */
  function View(emulated: seq<bv8>, config: seq<bv8>, physical: seq<bv8>): (view: seq<bv8>)
    requires |emulated| == |config| == |physical|
    ensures |view| == |config|
    ensures forall i | 0 <= i < |view| :: view[i] == MergeByte(emulated[i], config[i], physical[i])
  {
    seq(|config|, i requires 0 <= i < |config| => MergeByte(emulated[i], config[i], physical[i]))
  }

  /** Merging a loaded value is loading the merged bytes, for every access size. */
  lemma MergeThenLoad(emulated: seq<bv8>, config: seq<bv8>, physical: seq<bv8>, addr: nat, len: nat)
    requires |emulated| == |config| == |physical| && ValidLength(len) && addr + len <= |config|
    ensures Load(View(emulated, config, physical), addr, len)
         == MergeWord(Load(emulated, addr, len), Load(config, addr, len), Load(physical, addr, len))
  {
    hide Load, MergeWord, MergeByte;
    if len == 1 {
      MergeThenLoad1(emulated, config, physical, addr);
    } else if len == 2 {
      MergeThenLoad2(emulated, config, physical, addr);
    } else {
      MergeThenLoad4(emulated, config, physical, addr);
    }
  }

  lemma MergeThenLoad1(emulated: seq<bv8>, config: seq<bv8>, physical: seq<bv8>, addr: nat)
    requires |emulated| == |config| == |physical| && addr < |config|
    ensures Load(View(emulated, config, physical), addr, 1)
         == MergeWord(Load(emulated, addr, 1), Load(config, addr, 1), Load(physical, addr, 1))
  {
    hide Load, MergeWord, MergeByte, View;
    LoadOne(View(emulated, config, physical), addr);
    LoadOne(emulated, addr);
    LoadOne(config, addr);
    LoadOne(physical, addr);
    Merge1(emulated[addr], config[addr], physical[addr]);
  }

  lemma LoadOne(mem: seq<bv8>, addr: nat)
    requires addr < |mem|
    ensures Load(mem, addr, 1) == mem[addr] as bv32
  {
    hide Join2, Join4;
  }

  lemma MergeThenLoad4(emulated: seq<bv8>, config: seq<bv8>, physical: seq<bv8>, addr: nat)
    requires |emulated| == |config| == |physical| && addr + 4 <= |config|
    ensures Load(View(emulated, config, physical), addr, 4)
         == MergeWord(Load(emulated, addr, 4), Load(config, addr, 4), Load(physical, addr, 4))
  {
    hide Load, Halves, MergeWord, MergeByte;
    MergeThenLoad2(emulated, config, physical, addr);
    MergeThenLoad2(emulated, config, physical, addr + 2);
    MergeHalves(Load(emulated, addr, 2), Load(config, addr, 2), Load(physical, addr, 2),
                Load(emulated, addr + 2, 2), Load(config, addr + 2, 2), Load(physical, addr + 2, 2));
    WideReadIsHalves(View(emulated, config, physical), addr);
    WideReadIsHalves(config, addr);
    WideReadIsHalves(emulated, addr);
    WideReadIsHalves(physical, addr);
  }

  lemma MergeThenLoad2(emulated: seq<bv8>, config: seq<bv8>, physical: seq<bv8>, addr: nat)
    requires |emulated| == |config| == |physical| && addr + 2 <= |config|
    ensures Load(View(emulated, config, physical), addr, 2)
         == MergeWord(Load(emulated, addr, 2), Load(config, addr, 2), Load(physical, addr, 2))
    ensures Load(config, addr, 2) <= 0xFFFF && Load(physical, addr, 2) <= 0xFFFF && Load(emulated, addr, 2) <= 0xFFFF
  {
    Merge2(emulated[addr], config[addr], physical[addr], emulated[addr + 1], config[addr + 1], physical[addr + 1]);
    Join2Small(config[addr], config[addr + 1]);
    Join2Small(physical[addr], physical[addr + 1]);
    Join2Small(emulated[addr], emulated[addr + 1]);
  }

  lemma Join2Small(b0: bv8, b1: bv8)
    ensures Join2(b0, b1) <= 0xFFFF
  {
  }

  lemma MergeHalves(e0: bv32, c0: bv32, p0: bv32, e1: bv32, c1: bv32, p1: bv32)
    requires c0 <= 0xFFFF && p0 <= 0xFFFF && c1 <= 0xFFFF && p1 <= 0xFFFF && e0 <= 0xFFFF && e1 <= 0xFFFF
    ensures Halves(MergeWord(e0, c0, p0), MergeWord(e1, c1, p1))
         == MergeWord(Halves(e0, e1), Halves(c0, c1), Halves(p0, p1))
  {
    hide Halves, Keep, Clear, Or;
    KeepHalves(c0, c1, e0, e1);
    ClearHalves(p0, p1, e0, e1);
    OrHalves(Keep(c0, e0), Keep(c1, e1), Clear(p0, e0), Clear(p1, e1));
  }

  lemma KeepHalves(x0: bv32, x1: bv32, m0: bv32, m1: bv32)
    requires x0 <= 0xFFFF && x1 <= 0xFFFF && m0 <= 0xFFFF && m1 <= 0xFFFF
    ensures Keep(Halves(x0, x1), Halves(m0, m1)) == Halves(Keep(x0, m0), Keep(x1, m1))
  {
    hide Halves;
    AndHalves(x0, x1, m0, m1);
  }

  lemma ClearHalves(x0: bv32, x1: bv32, m0: bv32, m1: bv32)
    requires x0 <= 0xFFFF && x1 <= 0xFFFF && m0 <= 0xFFFF && m1 <= 0xFFFF
    ensures Clear(Halves(x0, x1), Halves(m0, m1)) == Halves(Clear(x0, m0), Clear(x1, m1))
  {
    hide Halves;
    AndNotHalves(x0, x1, m0, m1);
  }

  lemma AndHalves(x0: bv32, x1: bv32, m0: bv32, m1: bv32)
    requires x0 <= 0xFFFF && x1 <= 0xFFFF && m0 <= 0xFFFF && m1 <= 0xFFFF
    ensures Halves(x0, x1) & Halves(m0, m1) == Halves(x0 & m0, x1 & m1)
  {
  }

  lemma AndNotHalves(x0: bv32, x1: bv32, m0: bv32, m1: bv32)
    requires x0 <= 0xFFFF && x1 <= 0xFFFF && m0 <= 0xFFFF && m1 <= 0xFFFF
    ensures Halves(x0, x1) & !Halves(m0, m1) == Halves(x0 & !m0, x1 & !m1)
  {
  }

  lemma OrHalves(x0: bv32, x1: bv32, y0: bv32, y1: bv32)
    ensures Or(Halves(x0, x1), Halves(y0, y1)) == Halves(Or(x0, y0), Or(x1, y1))
  {
    calc {
      Or(Halves(x0, x1), Halves(y0, y1));
      (x0 | (x1 << 16)) | (y0 | (y1 << 16));
      (x0 | y0) | ((x1 | y1) << 16);
      Halves(Or(x0, y0), Or(x1, y1));
    }
  }

  lemma Merge1(e: bv8, c: bv8, p: bv8)
    ensures MergeByte(e, c, p) as bv32 == MergeWord(e as bv32, c as bv32, p as bv32)
  {
  }

  lemma Merge2(e0: bv8, c0: bv8, p0: bv8, e1: bv8, c1: bv8, p1: bv8)
    ensures Join2(MergeByte(e0, c0, p0), MergeByte(e1, c1, p1))
         == MergeWord(Join2(e0, e1), Join2(c0, c1), Join2(p0, p1))
  {
  }

  /** A 4-byte read is its two 2-byte reads joined little-endian. */
  lemma WideReadIsHalves(view: seq<bv8>, addr: nat)
    requires addr + 4 <= |view|
    ensures Load(view, addr, 4) == Halves(Load(view, addr, 2), Load(view, addr + 2, 2))
  {
    hide Join2, Halves;
  }

  /** A 4-byte read is the one value whose i-th byte, counted from the low end, is the i-th of the four 1-byte reads. */
  lemma WideReadIsBytes(view: seq<bv8>, addr: nat, x: bv32)
    requires addr + 4 <= |view|
    ensures x == Load(view, addr, 4) <==> forall i | 0 <= i < 4 :: Byte(x, i) == view[addr + i]
  {
    Join4Bytes(view[addr], view[addr + 1], view[addr + 2], view[addr + 3], x);
    hide Byte0, Byte1, Byte2, Byte3, Join4;
    assert Load(view, addr, 4) == Join4(view[addr], view[addr + 1], view[addr + 2], view[addr + 3]);
    hide Load;
    if forall i | 0 <= i < 4 :: Byte(x, i) == view[addr + i] {
      assert Byte(x, 0) == view[addr + 0] && Byte(x, 1) == view[addr + 1];
      assert Byte(x, 2) == view[addr + 2] && Byte(x, 3) == view[addr + 3];
    }
  }

  lemma Join4Bytes(b0: bv8, b1: bv8, b2: bv8, b3: bv8, x: bv32)
    ensures x == Join4(b0, b1, b2, b3) <==> Byte0(x) == b0 && Byte1(x) == b1 && Byte2(x) == b2 && Byte3(x) == b3
  {
    BytesOfJoin(b0, b1, b2, b3);
    JoinOfBytes(x);
    hide Byte0, Byte1, Byte2, Byte3, Join4;
  }

  lemma BytesOfJoin(b0: bv8, b1: bv8, b2: bv8, b3: bv8)
    ensures var x := Join4(b0, b1, b2, b3); Byte0(x) == b0 && Byte1(x) == b1 && Byte2(x) == b2 && Byte3(x) == b3
  {
  }

  lemma JoinOfBytes(x: bv32)
    ensures Join4(Byte0(x), Byte1(x), Byte2(x), Byte3(x)) == x
  {
  }

  // The shortcuts --------------------------------------------------------------------

  predicate NoneEmulated(emulated: bv32) { emulated == 0 }

  predicate AllEmulated(emulated: bv32, len: nat)
    requires ValidLength(len)
  {
    !emulated & Ones(len) == 0
  }

  /** No emulated bit: the emulated value is not needed.  No physical bit in the access:
      the physical value is not needed. */
  lemma ShortcutsAgree(emulated: bv32, config: bv32, physical: bv32, len: nat)
    requires ValidLength(len) && physical & !Ones(len) == 0
    ensures NoneEmulated(emulated) ==> MergeWord(emulated, 0, physical) == MergeWord(emulated, config, physical)
    ensures AllEmulated(emulated, len) ==> MergeWord(emulated, config, 0) == MergeWord(emulated, config, physical)
  {
  }

  /** The two shortcuts of vfio_pci_read_config do not change what is read. */
  lemma ReadIsView(emulated: seq<bv8>, config: seq<bv8>, physical: seq<bv8>, addr: nat, len: nat)
    requires |emulated| == |config| == |physical| && ValidLength(len) && addr + len <= |config|
    ensures var e, c, p := Load(emulated, addr, len), Load(config, addr, len), Load(physical, addr, len);
            && Load(View(emulated, config, physical), addr, len) == MergeWord(e, c, p)
            && (NoneEmulated(e) ==> MergeWord(e, 0, p) == MergeWord(e, c, p))
            && (AllEmulated(e, len) ==> MergeWord(e, c, 0) == MergeWord(e, c, p))
            && (NoneEmulated(e) ==> !AllEmulated(e, len))
  {
    hide Load, MergeWord, MergeByte, NoneEmulated, AllEmulated;
    LoadFits(physical, addr, len);
    ShortcutsAgree(Load(emulated, addr, len), Load(config, addr, len), Load(physical, addr, len), len);
    MergeThenLoad(emulated, config, physical, addr, len);
    NotBoth(Load(emulated, addr, len), len);
  }

  lemma NotBoth(emulated: bv32, len: nat)
    requires ValidLength(len)
    ensures !(NoneEmulated(emulated) && AllEmulated(emulated, len))
  {
  }

  lemma LoadFits(mem: seq<bv8>, addr: nat, len: nat)
    requires ValidLength(len) && addr + len <= |mem|
    ensures Load(mem, addr, len) & !Ones(len) == 0
  {
    if len == 2 {
      Join2Small(mem[addr], mem[addr + 1]);
    }
  }

  /** A fully emulated byte reads as QEMU's copy, whatever the device says. */
  lemma EmulatedByteReads(config: bv8, physical: bv8)
    ensures MergeByte(0xFF, config, physical) == config
  {
  }

  // Emulated fields --------------------------------------------------------------------

  function Lo(w: bv16): bv8 { (w & 0xFF) as bv8 }

  function Hi(w: bv16): bv8 { (w >> 8) as bv8 }

  function Not8(m: bv8): bv8 { !m }

  function Not16(m: bv16): bv16 { !m }

  function And8(v: bv8, m: bv8): bv8 { v & m }

  /** The bits of m hold the value v. */
  predicate Holds(b: bv8, m: bv8, v: bv8) { b & m == v }

  // vfio_set_word_bits on one of the two bytes
  function SetBits(b: bv8, val: bv8, mask: bv8): bv8 {
    (b & !mask) | val
  }

  /** The bits of m in a byte always read as v: they are emulated, hold v and cannot be
      written. */
  predicate Pinned(emulated: bv8, config: bv8, wmask: bv8, m: bv8, v: bv8) {
    emulated & m == m && config & m == v && wmask & m == 0
  }

  function Or8(a: bv8, b: bv8): bv8 { a | b }

  predicate SameOutside(now: bv8, was: bv8, m: bv8) { now & !m == was & !m }

  // pci_default_write_config on one byte
  function WriteByte(config: bv8, wmask: bv8, val: bv8): bv8 {
    (config & !wmask) | (val & wmask)
  }

  lemma WriteKeepsPinned(emulated: bv8, config: bv8, wmask: bv8, m: bv8, v: bv8, val: bv8)
    requires Pinned(emulated, config, wmask, m, v)
    ensures Pinned(emulated, WriteByte(config, wmask, val), wmask, m, v)
  {
  }

  lemma PinnedReads(emulated: bv8, config: bv8, wmask: bv8, m: bv8, v: bv8, physical: bv8)
    requires Pinned(emulated, config, wmask, m, v)
    ensures Holds(MergeByte(emulated, config, physical), m, v)
  {
  }

  /**
   * One byte of an emulated field, before and after. The bits of m are pinned to those of v and all others become
   * writable.
   * Outside m, emulated stays as it is and config takes the bits of v besides its own.
   */
  predicate Emulated(config: bv8, emulated: bv8, config': bv8, emulated': bv8, wmask': bv8, v: bv8, m: bv8) {
    && Pinned(emulated', config', wmask', m, And8(v, m)) && wmask' == Not8(m)
    && SameOutside(config', Or8(config, v), m) && SameOutside(emulated', emulated, m)
  }

  /** What vfio_add_emulated_word and _long do to each byte. */
  lemma EmulatedBytePinned(emulated: bv8, config: bv8, wmask: bv8, m: bv8, v: bv8)
    ensures Emulated(config, emulated, SetBits(config, v, m), SetBits(emulated, m, m), SetBits(wmask, Not8(m), m), v, m)
  {
    BytePinned(emulated, config, wmask, m, v);
    ByteOutside(emulated, config, m, v);
    hide Pinned, SameOutside, SetBits, Not8, And8, Or8;
  }

  lemma BytePinned(emulated: bv8, config: bv8, wmask: bv8, m: bv8, v: bv8)
    ensures Pinned(SetBits(emulated, m, m), SetBits(config, v, m), SetBits(wmask, Not8(m), m), m, And8(v, m))
    ensures SetBits(wmask, Not8(m), m) == Not8(m)
  {
  }

  lemma ByteOutside(emulated: bv8, config: bv8, m: bv8, v: bv8)
    ensures SameOutside(SetBits(config, v, m), Or8(config, v), m) && SameOutside(SetBits(emulated, m, m), emulated, m)
  {
  }

  /** A second call on the same byte makes every bit outside its own mask writable, so
      the first call's bits stay protected exactly when the second mask covers them. */
  lemma SecondCallKeepsProtection(wmask: bv8, m1: bv8, m2: bv8)
    ensures SetBits(SetBits(wmask, !m1, m1), !m2, m2) & m1 == 0 <==> m1 & !m2 == 0
  {
  }

  /** Bits that are emulated and outside the mask that was protected last read as the guest writes them. */
  lemma UnprotectedFollowsWrite(emulated: bv8, config: bv8, m1: bv8, m2: bv8, val: bv8, physical: bv8)
    requires emulated & m1 == m1 && m1 & m2 == 0
    ensures Holds(MergeByte(emulated, WriteByte(config, Not8(m2), val), physical), m1, And8(val, m1))
  {
  }

  lemma StillEmulated(before: bv8, now: bv8, m1: bv8, m2: bv8)
    requires before & m1 == m1 && m1 & m2 == 0 && SameOutside(now, before, m2)
    ensures now & m1 == m1
  {
    assert now & m1 == (now & !m2) & m1;
    assert before & m1 == (before & !m2) & m1;
  }

  /** A byte of two fields, set up one after the other, after the guest has written x. */
  lemma SecondWriteSeen(c0: bv8, e0: bv8, c1: bv8, e1: bv8, w1: bv8, v1: bv8, m1: bv8,
                        c2: bv8, e2: bv8, w2: bv8, v2: bv8, m2: bv8, x: bv8, physical: bv8)
    requires Emulated(c0, e0, c1, e1, w1, v1, m1) && Emulated(c1, e1, c2, e2, w2, v2, m2) && And8(m1, m2) == 0
    ensures Holds(MergeByte(e2, WriteByte(c2, w2, x), physical), m1, And8(x, m1))
  {
    hide MergeByte, WriteByte, Holds, SameOutside, Not8;
    StillEmulated(e1, e2, m1, m2);
    UnprotectedFollowsWrite(e2, c2, m1, m2, x, physical);
  }

  // The bytes of a field ---------------------------------------------------------------

  lemma AndBytes(x: bv32, m: bv32)
    ensures Byte0(Keep(x, m)) == And8(Byte0(x), Byte0(m)) && Byte1(Keep(x, m)) == And8(Byte1(x), Byte1(m))
    ensures Byte2(Keep(x, m)) == And8(Byte2(x), Byte2(m)) && Byte3(Keep(x, m)) == And8(Byte3(x), Byte3(m))
  {
  }

  /** A word whose bytes hold the value's in the mask's bits holds the value in the mask. */
  lemma FieldHeld(x: bv32, val: bv32, mask: bv32)
    requires And8(Byte0(x), Byte0(mask)) == And8(Byte0(val), Byte0(mask))
    requires And8(Byte1(x), Byte1(mask)) == And8(Byte1(val), Byte1(mask))
    requires And8(Byte2(x), Byte2(mask)) == And8(Byte2(val), Byte2(mask))
    requires And8(Byte3(x), Byte3(mask)) == And8(Byte3(val), Byte3(mask))
    ensures Keep(x, mask) == Keep(val, mask)
  {
    hide And8, Byte0, Byte1, Byte2, Byte3, Keep, Join4;
    AndBytes(x, mask);
    AndBytes(val, mask);
    JoinOfBytes(Keep(x, mask));
    JoinOfBytes(Keep(val, mask));
  }

  predicate FieldHolds(view: seq<bv8>, pos: nat, len: nat, val: bv32, mask: bv32)
    requires ValidLength(len) && pos + len <= |view|
  {
    forall i | 0 <= i < len :: Holds(view[pos + i], Byte(mask, i), And8(Byte(val, i), Byte(mask, i)))
  }

  /** Reading a field whose bytes hold its value gives the value in the bits of the mask. */
  lemma FieldReads(view: seq<bv8>, pos: nat, len: nat, val: bv32, mask: bv32)
    requires ValidLength(len) && pos + len <= |view| && mask & !Ones(len) == 0 && FieldHolds(view, pos, len, val, mask)
    ensures Keep(Load(view, pos, len), mask) == Keep(val, mask)
  {
    var x := Load(view, pos, len);
    LoadBytes(view, pos, len);
    MaskBytes(mask, len);
    HoldsIsAnd();
    assert forall i | 0 <= i < len :: And8(Byte(x, i), Byte(mask, i)) == And8(Byte(val, i), Byte(mask, i));
    NoBits();
    hide And8, Byte0, Byte1, Byte2, Byte3, Keep, Load, Holds, FieldHolds, Ones;
    assert forall i | 0 <= i < 4 :: And8(Byte(x, i), Byte(mask, i)) == And8(Byte(val, i), Byte(mask, i));
    assert And8(Byte(x, 0), Byte(mask, 0)) == And8(Byte(val, 0), Byte(mask, 0));
    assert And8(Byte(x, 1), Byte(mask, 1)) == And8(Byte(val, 1), Byte(mask, 1));
    assert And8(Byte(x, 2), Byte(mask, 2)) == And8(Byte(val, 2), Byte(mask, 2));
    assert And8(Byte(x, 3), Byte(mask, 3)) == And8(Byte(val, 3), Byte(mask, 3));
    FieldHeld(x, val, mask);
  }

  lemma WordHolds(view: seq<bv8>, pos: nat, val: bv32, mask: bv32)
    requires pos + 2 <= |view|
    requires Holds(view[pos], Byte0(mask), And8(Byte0(val), Byte0(mask)))
    requires Holds(view[pos + 1], Byte1(mask), And8(Byte1(val), Byte1(mask)))
    ensures FieldHolds(view, pos, 2, val, mask)
  {
    hide Holds, And8, Byte0, Byte1, Byte2, Byte3;
  }

  lemma HoldsIsAnd()
    ensures forall b, m, v :: Holds(b, m, v) <==> And8(b, m) == v
  {
  }

  lemma NoBits()
    ensures forall b :: And8(b, 0) == 0
  {
  }

  lemma LoadBytes(view: seq<bv8>, pos: nat, len: nat)
    requires ValidLength(len) && pos + len <= |view|
    ensures forall i | 0 <= i < len :: Byte(Load(view, pos, len), i) == view[pos + i]
  {
    if len == 4 {
      BytesOfJoin(view[pos], view[pos + 1], view[pos + 2], view[pos + 3]);
    } else if len == 2 {
      BytesOfJoin2(view[pos], view[pos + 1]);
    } else {
      ByteOfOne(view[pos]);
    }
    hide Byte0, Byte1, Byte2, Byte3, Join2, Join4;
  }

  lemma BytesOfJoin2(b0: bv8, b1: bv8)
    ensures Byte0(Join2(b0, b1)) == b0 && Byte1(Join2(b0, b1)) == b1
  {
  }

  lemma ByteOfOne(b: bv8)
    ensures Byte0(b as bv32) == b
  {
  }

  // A mask that fits has no bits in the bytes behind it.
  lemma MaskBytes(mask: bv32, len: nat)
    requires ValidLength(len) && mask & !Ones(len) == 0
    ensures forall i | len <= i < 4 :: Byte(mask, i) == 0
  {
    MaskHigh(mask);
    if len == 1 {
      MaskHigh1(mask);
    }
    hide Byte0, Byte1, Byte2, Byte3;
  }

  lemma MaskHigh(mask: bv32)
    ensures mask & !0xFFFF == 0 ==> Byte2(mask) == 0 && Byte3(mask) == 0
  {
  }

  lemma MaskHigh1(mask: bv32)
    ensures mask & !0xFF == 0 ==> Byte1(mask) == 0 && Byte2(mask) == 0 && Byte3(mask) == 0
  {
  }

  // vfio_set_word_bits on a little-endian word
  function SetWord(b0: bv8, b1: bv8, val: bv16, mask: bv16): bv16 {
    (((b0 as bv16) | (b1 as bv16 << 8)) & !mask) | val
  }

  /** The two bytes of a masked word are the masked bytes. */
  lemma WordBytes(b0: bv8, b1: bv8, val: bv16, mask: bv16)
    ensures Lo(SetWord(b0, b1, val, mask)) == SetBits(b0, Lo(val), Lo(mask))
    ensures Hi(SetWord(b0, b1, val, mask)) == SetBits(b1, Hi(val), Hi(mask))
  {
  }

  class VfioConfig {
    const config: array<bv8>    // pdev.config
    const wmask: array<bv8>     // pdev.wmask
    const emulated: array<bv8>  // emulated_config_bits
    const physical: array<bv8>  // the device's own config space

    constructor (size: nat)
      ensures Valid() && config.Length == size
      ensures fresh(config) && fresh(wmask) && fresh(emulated) && fresh(physical)
    {
      config, wmask, emulated, physical := new bv8[size], new bv8[size], new bv8[size], new bv8[size];
    }

    predicate Valid()
      reads this
    {
      && config.Length == wmask.Length == emulated.Length == physical.Length
      && config != wmask && config != emulated && config != physical
      && wmask != emulated && wmask != physical && emulated != physical
    }

    // vfio_pci_read_config.  The device is read only if a bit of the access is not
    // emulated, and only then can the read fail.
    method ReadConfig(addr: nat, len: nat) returns (r: ReadResult)
      requires Valid() && ValidLength(len) && addr + len <= config.Length
      ensures r.Value? ==> r.v == Load(View(emulated[..], config[..], physical[..]), addr, len)
      ensures AllEmulated(Load(emulated[..], addr, len), len) ==> r.Value?
    {
      hide Load, MergeWord, MergeByte, NoneEmulated, AllEmulated;
      ReadIsView(emulated[..], config[..], physical[..], addr, len);
      var emuBits := Load(emulated[..], addr, len);
      var emuVal: bv32, physVal: bv32 := 0, 0;
      if !NoneEmulated(emuBits) {
        emuVal := Load(config[..], addr, len);
      }
      if !AllEmulated(emuBits, len) {
        if * {
          return ReadFailed;
        }
        physVal := Load(physical[..], addr, len);
      }
      return Value(MergeWord(emuBits, emuVal, physVal));
    }

    // Guest writes ---------------------------------------------------------------------

    // pci_default_write_config
    method WriteConfig(w: Write)
      requires Valid() && ValidLength(w.len) && w.addr + w.len <= config.Length
      modifies config
      ensures forall k | 0 <= k < config.Length ::
                config[k] == if w.addr <= k < w.addr + w.len
                             then WriteByte(old(config[k]), wmask[k], Byte(w.val, k - w.addr)) else old(config[k])
    {
      hide WriteByte, Byte;
      for i := 0 to w.len
        invariant forall k | 0 <= k < config.Length ::
                    config[k] == if w.addr <= k < w.addr + i
                                 then WriteByte(old(config[k]), wmask[k], Byte(w.val, k - w.addr)) else old(config[k])
      {
        config[w.addr + i] := WriteByte(config[w.addr + i], wmask[w.addr + i], Byte(w.val, i));
      }
    }

    // vfio_set_word_bits
    method SetWordBits(buf: array<bv8>, pos: nat, val: bv16, mask: bv16)
      requires pos + 2 <= buf.Length
      modifies buf
      ensures buf[pos] == SetBits(old(buf[pos]), Lo(val), Lo(mask))
      ensures buf[pos + 1] == SetBits(old(buf[pos + 1]), Hi(val), Hi(mask))
      ensures forall k | 0 <= k < buf.Length && k != pos && k != pos + 1 :: buf[k] == old(buf[k])
    {
      hide Lo, Hi, SetBits, SetWord;
      WordBytes(buf[pos], buf[pos + 1], val, mask);
      var word := SetWord(buf[pos], buf[pos + 1], val, mask);
      buf[pos], buf[pos + 1] := Lo(word), Hi(word);
    }

    /** The field reads as val in the bits of mask, whatever the device says. */
    predicate FieldPinned(pos: nat, len: nat, val: bv32, mask: bv32)
      requires Valid() && ValidLength(len) && pos + len <= config.Length
      reads this, config, wmask, emulated
    {
      forall i | 0 <= i < len ::
        Pinned(emulated[pos + i], config[pos + i], wmask[pos + i], Byte(mask, i), And8(Byte(val, i), Byte(mask, i)))
    }

    // vfio_add_emulated_word
    method AddEmulatedWord(pos: nat, val: bv16, mask: bv16)
      requires Valid() && pos + 2 <= config.Length
      modifies config, wmask, emulated
      ensures Emulated(old(config[pos]), old(emulated[pos]), config[pos], emulated[pos], wmask[pos], Lo(val), Lo(mask))
      ensures Emulated(old(config[pos + 1]), old(emulated[pos + 1]), config[pos + 1], emulated[pos + 1],
                       wmask[pos + 1], Hi(val), Hi(mask))
      ensures forall k | 0 <= k < config.Length && !(pos <= k < pos + 2) ::
                config[k] == old(config[k]) && wmask[k] == old(wmask[k]) && emulated[k] == old(emulated[k])
    {
      hide Lo, Hi, SetBits, Emulated, Not8, Not16;
      WordNot(mask);
      EmulatedBytePinned(emulated[pos], config[pos], wmask[pos], Lo(mask), Lo(val));
      EmulatedBytePinned(emulated[pos + 1], config[pos + 1], wmask[pos + 1], Hi(mask), Hi(val));
      SetWordBits(config, pos, val, mask);
      SetWordBits(wmask, pos, Not16(mask), mask);
      SetWordBits(emulated, pos, mask, mask);
    }

    // vfio_add_emulated_long, whose dword is two words
    method AddEmulatedLong(pos: nat, val: bv32, mask: bv32)
      requires Valid() && pos + 4 <= config.Length
      modifies config, wmask, emulated
      ensures Emulated(old(config[pos]), old(emulated[pos]), config[pos], emulated[pos], wmask[pos], Byte0(val),
                       Byte0(mask))
      ensures Emulated(old(config[pos + 1]), old(emulated[pos + 1]), config[pos + 1], emulated[pos + 1],
                       wmask[pos + 1], Byte1(val), Byte1(mask))
      ensures Emulated(old(config[pos + 2]), old(emulated[pos + 2]), config[pos + 2], emulated[pos + 2],
                       wmask[pos + 2], Byte2(val), Byte2(mask))
      ensures Emulated(old(config[pos + 3]), old(emulated[pos + 3]), config[pos + 3], emulated[pos + 3],
                       wmask[pos + 3], Byte3(val), Byte3(mask))
      ensures forall k | 0 <= k < config.Length && !(pos <= k < pos + 4) ::
                config[k] == old(config[k]) && wmask[k] == old(wmask[k]) && emulated[k] == old(emulated[k])
    {
      hide Lo, Hi, LowWord, HighWord, Emulated, Byte0, Byte1, Byte2, Byte3;
      LongParts(mask);
      LongParts(val);
      AddEmulatedWord(pos, LowWord(val), LowWord(mask));
      AddEmulatedWord(pos + 2, HighWord(val), HighWord(mask));
    }

    /** Over any sequence of guest writes, with the device changing its own registers at
        will, a pinned field keeps reading as its value. */
    method GuestRun(writes: seq<Write>, pos: nat, len: nat, val: bv32, mask: bv32) returns (r: ReadResult)
      requires Valid() && ValidLength(len) && pos + len <= config.Length && FieldPinned(pos, len, val, mask)
      requires mask & !Ones(len) == 0
      requires forall i | 0 <= i < |writes| ::
                ValidLength(writes[i].len) && writes[i].addr + writes[i].len <= config.Length
      modifies config, physical
      ensures FieldPinned(pos, len, val, mask)
      ensures r.Value? ==> Keep(r.v, mask) == Keep(val, mask)
    {
      hide Pinned, MergeByte, WriteByte, Load, Byte, Holds, And8, AllEmulated, Keep, Ones;
      for i := 0 to |writes|
        invariant FieldPinned(pos, len, val, mask)
      {
        WriteOne(writes[i], pos, len, val, mask);
        DeviceChanges();
      }
      FieldSeen(pos, len, val, mask);
      FieldReads(View(emulated[..], config[..], physical[..]), pos, len, val, mask);
      r := ReadConfig(pos, len);
    }

    method WriteOne(w: Write, pos: nat, len: nat, val: bv32, mask: bv32)
      requires Valid() && ValidLength(len) && pos + len <= config.Length && FieldPinned(pos, len, val, mask)
      requires ValidLength(w.len) && w.addr + w.len <= config.Length
      modifies config
      ensures FieldPinned(pos, len, val, mask)
    {
      hide Pinned, WriteByte, Byte, And8;
      ghost var before := config[..];
      WriteConfig(w);
      forall i | 0 <= i < len
        ensures Pinned(emulated[pos + i], config[pos + i], wmask[pos + i], Byte(mask, i),
                       And8(Byte(val, i), Byte(mask, i)))
      {
        assert config[pos + i] == before[pos + i]
            || config[pos + i] == WriteByte(before[pos + i], wmask[pos + i], Byte(w.val, pos + i - w.addr));
        if w.addr <= pos + i < w.addr + w.len {
          WriteKeepsPinned(emulated[pos + i], before[pos + i], wmask[pos + i], Byte(mask, i),
                           And8(Byte(val, i), Byte(mask, i)),
                           Byte(w.val, pos + i - w.addr));
        }
      }
    }

    lemma FieldSeen(pos: nat, len: nat, val: bv32, mask: bv32)
      requires Valid() && ValidLength(len) && pos + len <= config.Length && FieldPinned(pos, len, val, mask)
      ensures FieldHolds(View(emulated[..], config[..], physical[..]), pos, len, val, mask)
    {
      hide Pinned, MergeByte, Byte, And8, Holds;
      forall i | 0 <= i < len
        ensures Holds(View(emulated[..], config[..], physical[..])[pos + i], Byte(mask, i),
                      And8(Byte(val, i), Byte(mask, i)))
      {
        PinnedReads(emulated[pos + i], config[pos + i], wmask[pos + i], Byte(mask, i),
                    And8(Byte(val, i), Byte(mask, i)), physical[pos + i]);
      }
    }

    /** A word made to read as a value does so after any writes of the guest. */
    method EmulatedWordStays(pos: nat, val: bv16, mask: bv16, writes: seq<Write>) returns (r: ReadResult)
      requires Valid() && pos + 2 <= config.Length
      requires forall i | 0 <= i < |writes| ::
                ValidLength(writes[i].len) && writes[i].addr + writes[i].len <= config.Length
      modifies config, wmask, emulated, physical
      ensures r.Value? ==> Keep(r.v, mask as bv32) == Keep(val as bv32, mask as bv32)
    {
      hide Keep, Pinned, Lo, Hi, Byte0, Byte1, And8, Not8, SameOutside, Or8, Ones;
      WordFits(mask);
      WordParts(mask);
      WordParts(val);
      AddEmulatedWord(pos, val, mask);
      r := GuestRun(writes, pos, 2, val as bv32, mask as bv32);
    }

    /** So does a dword. */
    method EmulatedLongStays(pos: nat, val: bv32, mask: bv32, writes: seq<Write>) returns (r: ReadResult)
      requires Valid() && pos + 4 <= config.Length
      requires forall i | 0 <= i < |writes| ::
                ValidLength(writes[i].len) && writes[i].addr + writes[i].len <= config.Length
      modifies config, wmask, emulated, physical
      ensures r.Value? ==> Keep(r.v, mask) == Keep(val, mask)
    {
      hide Keep, Pinned, Byte0, Byte1, Byte2, Byte3, And8, Not8, SameOutside, Or8;
      AddEmulatedLong(pos, val, mask);
      r := GuestRun(writes, pos, 4, val, mask);
    }

    /** Two calls on one word for different bits: the first field then reads as the guest writes it. */
    method SecondCallUnprotects(pos: nat, val1: bv16, mask1: bv16, val2: bv16, mask2: bv16,
                                x: bv32) returns (r: ReadResult)
      requires Valid() && pos + 2 <= config.Length && mask1 & mask2 == 0
      modifies config, wmask, emulated
      ensures r.Value? ==> Keep(r.v, mask1 as bv32) == Keep(x, mask1 as bv32)
    {
      hide Keep, Emulated, Lo, Hi, Not8, And8, WriteByte, MergeByte, Holds, FieldHolds, Load, Ones;
      hide Byte0, Byte1, Byte2, Byte3;
      WordParts(mask1);
      WordsApart(mask1, mask2);
      ghost var c0, e0 := config[..], emulated[..];
      AddEmulatedWord(pos, val1, mask1);
      ghost var c1, e1, w1 := config[..], emulated[..], wmask[..];
      AddEmulatedWord(pos, val2, mask2);
      ghost var c2 := config[..];
      WriteConfig(Write(pos, x, 2));
      ghost var view := View(emulated[..], config[..], physical[..]);
      SecondWriteSeen(c0[pos], e0[pos], c1[pos], e1[pos], w1[pos], Lo(val1), Lo(mask1),
                      c2[pos], emulated[pos], wmask[pos], Lo(val2), Lo(mask2), Byte(x, 0), physical[pos]);
      SecondWriteSeen(c0[pos + 1], e0[pos + 1], c1[pos + 1], e1[pos + 1], w1[pos + 1], Hi(val1), Hi(mask1),
                      c2[pos + 1], emulated[pos + 1], wmask[pos + 1], Hi(val2), Hi(mask2), Byte(x, 1),
                      physical[pos + 1]);
      WordHolds(view, pos, x, mask1 as bv32);
      WordFits(mask1);
      FieldReads(view, pos, 2, x, mask1 as bv32);
      r := ReadConfig(pos, 2);
    }

    method DeviceChanges()
      modifies physical
    {
      for i := 0 to physical.Length {
        var b: bv8 := *;
        physical[i] := b;
      }
    }
  }

  function LowWord(x: bv32): bv16 { (x & 0xFFFF) as bv16 }

  function HighWord(x: bv32): bv16 { (x >> 16) as bv16 }

  lemma WordNot(mask: bv16)
    ensures Lo(Not16(mask)) == Not8(Lo(mask)) && Hi(Not16(mask)) == Not8(Hi(mask))
  {
  }

  lemma WordParts(x: bv16)
    ensures Lo(x) == Byte0(x as bv32) && Hi(x) == Byte1(x as bv32)
  {
  }

  lemma LongParts(x: bv32)
    ensures Lo(LowWord(x)) == Byte0(x) && Hi(LowWord(x)) == Byte1(x)
    ensures Lo(HighWord(x)) == Byte2(x) && Hi(HighWord(x)) == Byte3(x)
  {
  }

  lemma WordFits(x: bv16)
    ensures x as bv32 & !Ones(2) == 0
  {
  }

  lemma WordsApart(m1: bv16, m2: bv16)
    requires m1 & m2 == 0
    ensures And8(Lo(m1), Lo(m2)) == 0 && And8(Hi(m1), Hi(m2)) == 0
  {
  }
}
