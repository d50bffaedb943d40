/** The system-register values mmu_init programs, as bit patterns, and the order of its
    barrier and register-access instructions as a log of events. */
module Registers {
  import opened Descriptors

  /** TCR_EL1 as composed by the source. Fields by their architectural positions:
      T0SZ [5:0], EPD0 7, IRGN0 [9:8], ORGN0 [11:10], SH0 [13:12], TG0 [15:14], EPD1 23,
      TG1 [31:30], IPS [34:32], TBI0 37. */
  function TcrValue(): (r: bv64)
    ensures r & 0x3F == 32                       // T0SZ = 32: TTBR0 covers 2^32 bytes
    ensures (r >> 7) & 1 == 0                    // EPD0 clear: walks through TTBR0 enabled
    ensures (r >> 8) & 3 == 1 && (r >> 10) & 3 == 1  // IRGN0 = ORGN0 = write-back cacheable
    ensures (r >> 12) & 3 == 3                   // SH0 = inner shareable
    ensures (r >> 14) & 3 == 0                   // TG0 = 4 KiB granule
    ensures (r >> 23) & 1 == 1                   // EPD1 set: no walks through TTBR1
    ensures (r >> 30) & 3 == 2                   // bit 31 set, bit 30 clear
    ensures (r >> 32) & 7 == 0                   // IPS = 0
    ensures (r >> 37) & 1 == 0                   // TBI0 clear
    ensures r == 0x8080_3520                     // the whole value written to TCR_EL1
  {
    (0 << 37) | (1 << 31) | (0 << 32) | (1 << 23) | (0 << 14) | (3 << 12) | (1 << 10) | (1 << 8)
      | (0 << 7) | (32 << 0)
  }

  /** Attribute byte `idx` of a MAIR_EL1 value. */
  function MairAttr(mair: bv64, idx: bv64): bv64
    requires idx < 8
  {
    (mair >> (idx * 8)) & 0xFF
  }

  /** MAIR_EL1: the normal profile (index MT_NORMAL) is 0xFF, write-back cacheable; the device
      profile (index MT_DEVICE) is 0x00, Device-nGnRnE; the six unused attributes are 0x00. */
  function MairValue(): (r: bv64)
    ensures MairAttr(r, AttrIndex(Normal)) == 0xFF
    ensures MairAttr(r, AttrIndex(Device)) == 0x00
    ensures forall idx: bv64 | 1 <= idx < 8 :: MairAttr(r, idx) == 0
  {
    (0xFF << (MT_NORMAL * 8)) | (0x00 << (MT_DEVICE * 8))
  }

  /** SCTLR_EL1 after the read-modify-write: M (bit 0) and C (bit 2) set, every other bit as read. */
  function SctlrEnable(read: bv64): (r: bv64)
    ensures r & 5 == 5
    ensures r & !5 == read & !5
  {
    read | 5
  }

  /** Setting bits 0 and 2 one after the other is SctlrEnable. */
  lemma SetMAndC(read: bv64)
    ensures read | (1 << 0) | (1 << 2) == SctlrEnable(read)
  {
  }

  /** The system registers mmu_init accesses. */
  datatype SysReg = Ttbr0El1 | TcrEl1 | MairEl1 | SctlrEl1

  /** One barrier or register access, in program order. */
  datatype Event = Dsb | Isb | Msr(reg: SysReg, value: bv64) | Mrs(reg: SysReg, value: bv64)

  /** Some event before the last one writes `reg`. */
  predicate WrittenBeforeLast(log: seq<Event>, reg: SysReg) {
    exists j | 0 <= j < |log| - 1 :: log[j].Msr? && log[j].reg == reg
  }

  /** The ordering the enable sequence relies on: every register write follows a data barrier,
      TTBR0, TCR and MAIR are each written before translation is switched on, and the last
      three events are an instruction barrier, the read of SCTLR_EL1 and the write back of
      that value with M and C set; no earlier event writes SCTLR_EL1. */
  predicate OrderedEnable(log: seq<Event>) {
    && |log| >= 3
    && (forall j | 0 <= j < |log| && log[j].Msr? :: Dsb in log[..j])
    && (forall j | 0 <= j < |log| - 1 && log[j].Msr? :: log[j].reg != SctlrEl1)
    && WrittenBeforeLast(log, Ttbr0El1) && WrittenBeforeLast(log, TcrEl1) && WrittenBeforeLast(log, MairEl1)
    && log[|log| - 3] == Isb
    && log[|log| - 2].Mrs? && log[|log| - 2].reg == SctlrEl1
    && log[|log| - 1] == Msr(SctlrEl1, SctlrEnable(log[|log| - 2].value))
  }

  /** The events of mmu.c lines 115-137 in program order, for a table base and a value read from SCTLR_EL1. */
  function EnableSequence(l1Table: bv64, sctlrRead: bv64): seq<Event> {
    [Dsb, Msr(Ttbr0El1, l1Table), Msr(TcrEl1, TcrValue()), Msr(MairEl1, MairValue()),
     Isb, Mrs(SctlrEl1, sctlrRead), Msr(SctlrEl1, SctlrEnable(sctlrRead))]
  }

  /** The source's sequence has the ordering the enable step relies on. */
  lemma EnableSequenceOrdered(l1Table: bv64, sctlrRead: bv64)
    ensures OrderedEnable(EnableSequence(l1Table, sctlrRead))
  {
    var log := EnableSequence(l1Table, sctlrRead);
    forall j | 1 <= j < |log|
      ensures Dsb in log[..j]
    {
      assert log[..j][0] == Dsb;
    }
    assert log[1].Msr? && log[1].reg == Ttbr0El1;
    assert log[2].Msr? && log[2].reg == TcrEl1;
    assert log[3].Msr? && log[3].reg == MairEl1;
  }

  /** mmu.c lines 115-137: publish the tables, load TTBR0_EL1, TCR_EL1 and MAIR_EL1, then switch
      translation on; `sctlrRead` is the value the `mrs` returns. */
  method EnableTranslation(l1Table: bv64, sctlrRead: bv64) returns (log: seq<Event>)
    ensures log == EnableSequence(l1Table, sctlrRead)
    ensures OrderedEnable(log)
    ensures log[1] == Msr(Ttbr0El1, l1Table)
  {
    log := [Dsb];
    log := log + [Msr(Ttbr0El1, l1Table)];
    var r := TcrValue();
    log := log + [Msr(TcrEl1, r)];
    var reg := MairValue();
    log := log + [Msr(MairEl1, reg)];
    log := log + [Isb];
    r := sctlrRead;
    log := log + [Mrs(SctlrEl1, r)];
    r := r | (1 << 0) | (1 << 2);
    SetMAndC(sctlrRead);
    log := log + [Msr(SctlrEl1, r)];
    assert log == [Dsb, Msr(Ttbr0El1, l1Table), Msr(TcrEl1, TcrValue()), Msr(MairEl1, MairValue()),
                   Isb, Mrs(SctlrEl1, sctlrRead), Msr(SctlrEl1, SctlrEnable(sctlrRead))];
    EnableSequenceOrdered(l1Table, sctlrRead);
  }
}
