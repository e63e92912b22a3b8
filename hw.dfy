/** Machine-level vocabulary shared by the three drivers: fixed-width
    unsigned integers, the C string length, and the processor/port
    primitives (`outb`, `idt_load`) modelled as appends to an event log. */
module Hw {

  type u8 = x: int | 0 <= x < 0x100
  type u16 = x: int | 0 <= x < 0x1_0000
  type u32 = x: int | 0 <= x < 0x1_0000_0000
  type u64 = x: int | 0 <= x < 0x1_0000_0000_0000_0000

  /** A value stored into a 32-bit unsigned variable: reduced modulo 2^32,
      and unchanged when it already fits. */
  function Wrap32(v: int): (r: u32)
    ensures 0 <= v < 0x1_0000_0000 ==> r == v
    ensures (v - r) % 0x1_0000_0000 == 0
  {
    v % 0x1_0000_0000
  }

  /** Wrapping an intermediate sum changes nothing: unsigned 32-bit
      addition is addition modulo 2^32. */
  lemma Wrap32Add(a: int, b: int)
    ensures Wrap32(Wrap32(a) + b) == Wrap32(a + b)
  {
    var q := a / 0x1_0000_0000;
    assert a == q * 0x1_0000_0000 + Wrap32(a);
    assert Wrap32(a) + b == (a + b) - q * 0x1_0000_0000;
  }

  /** The byte '\n', which both renderers treat specially. */
  const Newline: u8 := 0x0A

  /** One externally visible effect of the drivers. `Lidt` carries the
      descriptor-table pointer and, as a ghost snapshot, the bytes the
      processor finds at `base` when the table is loaded. */
  datatype Event =
    | Out(port: u16, value: u8)
    | Lidt(limit: u16, base: u32, image: seq<u8>)

  /** The processor and its I/O ports, seen only through what is sent to them. */
  class Machine {
    ghost var log: seq<Event>

    constructor ()
      ensures log == []
    {
      log := [];
    }

    /** `outb(port, value)`: one byte written to an I/O port. */
    method Outb(port: u16, value: u8)
      modifies this
      ensures log == old(log) + [Out(port, value)]
    {
      log := log + [Out(port, value)];
    }

    /** `idt_load(&idtp)`: the `lidt` trampoline, given the table pointer. */
    method IdtLoad(limit: u16, base: u32, ghost image: seq<u8>)
      modifies this
      ensures log == old(log) + [Lidt(limit, base, image)]
    {
      log := log + [Lidt(limit, base, image)];
    }
  }

  /** `strlen`: the number of bytes before the first NUL of a terminated string. */
  function Strlen(buf: seq<u8>): (n: nat)
    requires 0 in buf
    ensures n < |buf| && buf[n] == 0
    ensures forall i :: 0 <= i < n ==> buf[i] != 0
  {
    if buf[0] == 0 then 0 else 1 + Strlen(buf[1..])
  }
}
