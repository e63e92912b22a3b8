/** The interrupt descriptor table builder (src/include/cpu/idt.h): a
    256-slot table of packed 8-byte gate descriptors in the layout of
    section 6.11 of the Intel SDM, Volume 3A, the table pointer of
    section 6.10 of the same manual, the 8259A remap sequence and the final `idt_load`. */
module Idt {
  import opened Hw

  const IdtEntries: nat := 256
  /** sizeof(idt_entry_t): handler_lo, sel, always0, flags, handler_hi, packed. */
  const EntrySize: nat := 2 + 2 + 1 + 1 + 2
  /** The kernel code segment selector every installed gate uses. */
  const KernelCode: u16 := 0x08
  /** Present, DPL 0, 32-bit interrupt gate. */
  const InterruptGate: u8 := 0x8E

  /** idt_entry_t. */
  datatype Entry = Entry(handlerLo: u16, sel: u16, always0: u8, flags: u8, handlerHi: u16)

  const ZeroEntry := Entry(0, 0, 0, 0, 0)

  /** idt_ptr_t. */
  datatype IdtPtr = IdtPtr(limit: u16, base: u32)

  /** `handler & 0xFFFF` */
  function Low16(handler: u64): u16 { handler % 0x1_0000 }

  /** `(handler >> 16) & 0xFFFF` */
  function High16(handler: u64): u16 { (handler / 0x1_0000) % 0x1_0000 }

  /** The slot `set_idt_entry(num, handler, sel, flags)` stores. */
  function Gate(handler: u64, sel: u16, flags: u8): Entry {
    Entry(Low16(handler), sel, 0, flags, High16(handler))
  }

  /** The handler address the processor reassembles from a gate's two halves. */
  function HandlerAddress(e: Entry): u32 {
    e.handlerLo + e.handlerHi * 0x1_0000
  }

  /** A 32-bit handler address survives the split into halves. */
  lemma GateAddress(handler: u64, sel: u16, flags: u8)
    requires handler < 0x1_0000_0000
    ensures HandlerAddress(Gate(handler, sel, flags)) == handler
    ensures Gate(handler, sel, flags).sel == sel && Gate(handler, sel, flags).flags == flags
    ensures Gate(handler, sel, flags).always0 == 0
  {
    var q := handler / 0x1_0000;
    assert q < 0x1_0000;
    assert High16(handler) == q;
    assert handler == q * 0x1_0000 + Low16(handler);
  }

  /** The fields of a gate's flag byte, as section 6.11 of the Intel SDM,
      Volume 3A, names them: P, DPL, S (storage segment), D and the type. */
  datatype GateKind = GateKind(present: bool, dpl: nat, storage: bool, size32: bool, gateType: nat)

  /** The flag byte split into its fields; the fields rebuild the byte, so
      distinct bytes decode to distinct kinds. */
  function DecodeFlags(flags: u8): (k: GateKind)
    ensures k.dpl < 4 && k.gateType < 8
    ensures flags == (if k.present then 0x80 else 0) + 0x20 * k.dpl + (if k.storage then 0x10 else 0)
                     + (if k.size32 then 8 else 0) + k.gateType
  {
    FlagFields(flags);
    GateKind(flags / 0x80 == 1, (flags / 0x20) % 4, (flags / 0x10) % 2 == 1, (flags / 8) % 2 == 1, flags % 8)
  }

  /** The byte is the sum of its fields, taken one division at a time. */
  lemma FlagFields(flags: u8)
    ensures flags / 0x80 < 2
    ensures flags == 0x80 * (flags / 0x80) + 0x20 * ((flags / 0x20) % 4) + 0x10 * ((flags / 0x10) % 2)
                     + 8 * ((flags / 8) % 2) + flags % 8
  {
    var a := flags / 8;
    var b := a / 2;
    var c := b / 2;
    assert b == flags / 0x10;
    assert c == flags / 0x20;
    assert c / 4 == flags / 0x80;
    assert flags == 8 * a + flags % 8;
    assert a == 2 * b + a % 2;
    assert b == 2 * c + b % 2;
    assert c == 4 * (c / 4) + c % 4;
  }

  /** 0x8E is a present, ring-0, 32-bit interrupt gate (type 110b) with S clear. */
  lemma InterruptGateFlags()
    ensures DecodeFlags(InterruptGate) == GateKind(true, 0, false, true, 6)
  {
  }

  function LowByte(w: u16): u8 { w % 0x100 }

  function HighByte(w: u16): u8 { w / 0x100 }

  /** The packed little-endian bytes of one descriptor, as the processor reads them. */
  function EncodeEntry(e: Entry): (bytes: seq<u8>)
    ensures |bytes| == EntrySize
  {
    [LowByte(e.handlerLo), HighByte(e.handlerLo), LowByte(e.sel), HighByte(e.sel),
     e.always0, e.flags, LowByte(e.handlerHi), HighByte(e.handlerHi)]
  }

  function DecodeEntry(bytes: seq<u8>): Entry
    requires |bytes| == EntrySize
  {
    Entry(bytes[0] as int + bytes[1] as int * 0x100, bytes[2] as int + bytes[3] as int * 0x100,
          bytes[4], bytes[5], bytes[6] as int + bytes[7] as int * 0x100)
  }

  lemma DecodeEncode(e: Entry)
    ensures DecodeEntry(EncodeEntry(e)) == e
  {
  }

  lemma EncodeDecode(bytes: seq<u8>)
    requires |bytes| == EntrySize
    ensures EncodeEntry(DecodeEntry(bytes)) == bytes
  {
    var b := EncodeEntry(DecodeEntry(bytes));
    assert forall i :: 0 <= i < EntrySize ==> b[i] == bytes[i];
  }

  /** The table as a contiguous byte image, slot 0 first. */
  function TableImage(t: seq<Entry>): seq<u8> {
    if t == [] then [] else EncodeEntry(t[0]) + TableImage(t[1..])
  }

  /** The descriptor of vector v sits at byte 8v of the image. */
  lemma {:induction false} TableImageSlot(t: seq<Entry>, v: nat)
    requires v < |t|
    ensures |TableImage(t)| == EntrySize * |t|
    ensures TableImage(t)[EntrySize * v .. EntrySize * (v + 1)] == EncodeEntry(t[v])
  {
    if v == 0 {
      if |t| > 1 {
        TableImageSlot(t[1..], 0);
      }
    } else {
      TableImageSlot(t[1..], v - 1);
      assert TableImage(t) == EncodeEntry(t[0]) + TableImage(t[1..]);
      assert TableImage(t)[EntrySize * v .. EntrySize * (v + 1)]
          == TableImage(t[1..])[EntrySize * (v - 1) .. EntrySize * v];
    }
  }

  /** The vectors `idt_install` fills: CPU exceptions 0-19 and remapped IRQs 32-47. */
  predicate IsInstalled(v: int) {
    0 <= v < 20 || 32 <= v < 48
  }

  /** The 8259A programming sequence `idt_install` sends, in order. */
  const PicRemap: seq<Event> := [
    Out(0x20, 0x10), Out(0xA0, 0x10),
    Out(0x21, 0x20), Out(0xA1, 0x28),
    Out(0x21, 0x04), Out(0xA1, 0x02),
    Out(0x21, 0x01), Out(0xA1, 0x01),
    Out(0x21, 0x00), Out(0xA1, 0x00)]

  /** The bytes of the remap, taken as bytes only: both ICW1 writes leave
      IC4 (bit 0) clear, and the ICW2 writes to the two data ports carry
      0x20 and 0x28, the first vectors of the installed ranges 32-39 and
      40-47. No claim is made about the mode the controllers end up in. */
  lemma RemapOffsetsMatchGates()
    ensures PicRemap[0].value % 2 == 0 && PicRemap[1].value % 2 == 0
    ensures PicRemap[2] == Out(0x21, 0x20) && PicRemap[3] == Out(0xA1, 0x28)
    ensures forall v :: PicRemap[2].value <= v < PicRemap[2].value + 8 ==> IsInstalled(v)
    ensures forall v :: PicRemap[3].value <= v < PicRemap[3].value + 8 ==> IsInstalled(v)
  {
  }

  function LoadCount(log: seq<Event>): nat {
    if log == [] then 0 else (if log[0].Lidt? then 1 else 0) + LoadCount(log[1..])
  }

  /** A log whose last event is a table load and whose other events are
      port writes holds exactly one load. */
  lemma {:induction false} SingleLoadAtEnd(log: seq<Event>)
    requires |log| > 0 && log[|log| - 1].Lidt?
    requires forall i :: 0 <= i < |log| - 1 ==> log[i].Out?
    ensures LoadCount(log) == 1
  {
    if |log| > 1 {
      assert log[0].Out?;
      SingleLoadAtEnd(log[1..]);
    } else {
      assert log[1..] == [];
    }
  }

  /** What `idt_install` appends to the machine's log: the ten remap writes,
      then exactly one table load, which is the last event. */
  lemma InstallLogShape(image: seq<u8>, base: u32)
    ensures var tail := PicRemap + [Lidt(2047, base, image)];
      LoadCount(tail) == 1 && tail[|tail| - 1].Lidt? &&
      forall i :: 0 <= i < |tail| - 1 ==> tail[i].Out?
  {
    var tail := PicRemap + [Lidt(2047, base, image)];
    assert forall i :: 0 <= i < |tail| - 1 ==> tail[i].Out?;
    SingleLoadAtEnd(tail);
  }

  /** The global `idt` table together with `idtp`. `base` stands for the
      table's address, `(uint32_t)&idt`. */
  class Table {
    var slots: array<Entry>
    var idtp: IdtPtr
    const base: u32

    ghost predicate Valid()
      reads this
    {
      slots.Length == IdtEntries
    }

    /** The statically allocated, zero-initialised globals. */
    constructor (base: u32)
      ensures Valid() && fresh(slots) && this.base == base
      ensures forall v :: 0 <= v < IdtEntries ==> slots[v] == ZeroEntry
      ensures idtp == IdtPtr(0, 0)
    {
      this.base := base;
      slots := new Entry[IdtEntries](_ => ZeroEntry);
      idtp := IdtPtr(0, 0);
    }

    /** set_idt_entry: a `uint8_t` index is always inside the 256-slot table. */
    method SetEntry(num: u8, handler: u64, sel: u16, flags: u8)
      requires Valid()
      modifies slots
      ensures slots[..] == old(slots[..])[num := Gate(handler, sel, flags)]
    {
      slots[num] := slots[num].(handlerLo := Low16(handler));
      slots[num] := slots[num].(handlerHi := High16(handler));
      slots[num] := slots[num].(always0 := 0);
      slots[num] := slots[num].(flags := flags);
      slots[num] := slots[num].(sel := sel);
    }

    /** idt_install. `handlers[v]` is the address of `interrupt_handler_v`
        (entries 20-31 are not used). */
    method Install(handlers: seq<u32>, cpu: Machine)
      requires Valid() && |handlers| == 48
      modifies this, slots, cpu
      ensures Valid() && slots == old(slots)
      ensures idtp == IdtPtr(EntrySize * IdtEntries - 1, base) && idtp.limit == 2047
      ensures slots[..] == InstalledTable(handlers)
      ensures |TableImage(slots[..])| == idtp.limit + 1
      ensures cpu.log == old(cpu.log) + PicRemap + [Lidt(2047, base, TableImage(slots[..]))]
    {
      idtp := idtp.(limit := EntrySize * IdtEntries - 1);
      idtp := idtp.(base := base);

      for i := 0 to IdtEntries
        modifies slots
        invariant forall v :: 0 <= v < i ==> slots[v] == ZeroEntry
      {
        slots[i] := slots[i].(handlerLo := 0);
        slots[i] := slots[i].(handlerHi := 0);
        slots[i] := slots[i].(always0 := 0);
        slots[i] := slots[i].(flags := 0);
        slots[i] := slots[i].(sel := 0);
      }

      for v := 0 to 20
        modifies slots
        invariant forall u :: 0 <= u < v ==> slots[u] == Gate(handlers[u], KernelCode, InterruptGate)
        invariant forall u :: v <= u < IdtEntries ==> slots[u] == ZeroEntry
      {
        SetEntry(v, handlers[v], KernelCode, InterruptGate);
      }
      for v := 32 to 48
        modifies slots
        invariant forall u :: 0 <= u < 20 || 32 <= u < v ==>
          slots[u] == Gate(handlers[u], KernelCode, InterruptGate)
        invariant forall u :: 20 <= u < 32 || v <= u < IdtEntries ==> slots[u] == ZeroEntry
      {
        SetEntry(v, handlers[v], KernelCode, InterruptGate);
      }
      assert slots[..] == InstalledTable(handlers);

      RemapPics(cpu);

      TableImageSlot(slots[..], 0);
      cpu.IdtLoad(idtp.limit, idtp.base, TableImage(slots[..]));
    }
  }

  /** The 8259A writes of `idt_install`: ICW1 (without IC4) to both
      controllers, ICW2 0x20/0x28, ICW3 0x04/0x02, then mask writes 0x01
      and 0x00. */
  method RemapPics(cpu: Machine)
    modifies cpu
    ensures cpu.log == old(cpu.log) + PicRemap
  {
    cpu.Outb(0x20, 0x10);
    cpu.Outb(0xA0, 0x10);
    cpu.Outb(0x21, 0x20);
    cpu.Outb(0xA1, 0x28);
    cpu.Outb(0x21, 0x04);
    cpu.Outb(0xA1, 0x02);
    cpu.Outb(0x21, 0x01);
    cpu.Outb(0xA1, 0x01);
    cpu.Outb(0x21, 0x00);
    cpu.Outb(0xA1, 0x00);
  }

  /** The table `idt_install` leaves behind. */
  function InstalledTable(handlers: seq<u32>): seq<Entry>
    requires |handlers| == 48
  {
    seq(IdtEntries, v requires 0 <= v < IdtEntries =>
      if IsInstalled(v) then Gate(handlers[v], KernelCode, InterruptGate) else ZeroEntry)
  }

  /** After `idt_install` every slot outside 0-19 and 32-47 is all zero, and
      every slot inside decodes to its handler's address with the kernel
      code selector and the interrupt-gate flags. */
  lemma InstalledTableSlots(handlers: seq<u32>, v: nat)
    requires |handlers| == 48 && v < IdtEntries
    ensures var e := InstalledTable(handlers)[v];
      if IsInstalled(v) then
        HandlerAddress(e) == handlers[v] && e.sel == 0x08 && e.flags == 0x8E && e.always0 == 0
      else
        e == ZeroEntry
  {
    if IsInstalled(v) {
      GateAddress(handlers[v], KernelCode, InterruptGate);
    }
  }
}
