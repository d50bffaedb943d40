/** What the built tables map. An abstract reading of the tables from TTBR0: it follows a
    level-1 entry to a level-2 table only when that table lies in the table window, and it
    stops short of level-3 page tables, which mmu_init never builds. */
module Mapping {
  import opened Descriptors
  import opened Tables

  /** Outcome of looking a virtual address up. `Beyond` marks a lookup that leaves what the
      model covers: a table pointer outside the window, or a level-3 table. */
  datatype Translation = Fault | Mapped(pa: bv64, mt: MemType) | Beyond

  /** Which of the three tables, if any, starts at address `a`. */
  function WindowTable(loadAddr: bv64, a: bv64): Option<nat>
    requires ValidLoadAddr(loadAddr)
  {
    if a == TableAddr(loadAddr, 0) then Some(0)
    else if a == TableAddr(loadAddr, 1) then Some(1)
    else if a == TableAddr(loadAddr, 2) then Some(2)
    else None
  }

  /** WindowTable inverts TableAddr: the three tables start at three distinct addresses. */
  lemma WindowTableOf(loadAddr: bv64, t: nat)
    requires ValidLoadAddr(loadAddr) && t < TABLE_COUNT
    ensures WindowTable(loadAddr, TableAddr(loadAddr, t)) == Some(t)
  {
    var a0, a1, a2 := TableAddr(loadAddr, 0), TableAddr(loadAddr, 1), TableAddr(loadAddr, 2);
    if t == 1 {
      assert a0 != a1;
    } else if t == 2 {
      assert a0 != a2 && a1 != a2;
    }
  }

  /** T0SZ as TcrValue programs it: TTBR0 translates the low 2^(64 - T0SZ) bytes. */
  const T0SZ: bv64 := 32

  /** Index bits of a virtual address: [38:30] select the level-1 slot, [29:21] the level-2 slot. */
  function L1Index(va: bv64): (i: nat)
    ensures i < ENTRIES
  {
    (((va >> 30) & 0x1FF) as bv16) as int
  }

  function L2Index(va: bv64): (i: nat)
    ensures i < ENTRIES
  {
    (((va >> 21) & 0x1FF) as bv16) as int
  }

  /** Output address of a 2 MiB block `b` for `va`: the block's bits above 21 and the offset below. */
  function BlockOutput(b: bv64, va: bv64): bv64 {
    (b & 0xFFFF_FFFF_FFE0_0000) | (va & 0x1F_FFFF)
  }

  /** The level-2 step: a block maps `va` into its 2 MiB, a further table leads to level 3,
      which the model does not follow, and an unused or malformed entry faults. */
  function Level2(mem: seq<bv64>, t: nat, va: bv64): Translation
    requires t < TABLE_COUNT && |mem| >= WINDOW_END
  {
    match Decode(mem[TableWord(t) + L2Index(va)])
    case Some(Block(b, mt)) => Mapped(BlockOutput(b, va), mt)
    case Some(Table(_, _)) => Beyond
    case _ => Fault
  }

  /** Looks `va` up in the tables held in `mem` (words from load_addr), starting from `ttbr0`,
      over the 2^(64 - T0SZ) bytes TTBR0 translates. */
  function Translate(mem: seq<bv64>, loadAddr: bv64, ttbr0: bv64, va: bv64): Translation
    requires ValidLoadAddr(loadAddr)
    requires |mem| >= WINDOW_END
  {
    if va >> (64 - T0SZ) != 0 then Fault
    else match WindowTable(loadAddr, ttbr0)
      case None => Beyond
      case Some(t1) =>
        match Decode(mem[TableWord(t1) + L1Index(va)])
        case Some(Table(a, _)) =>
          (match WindowTable(loadAddr, a)
           case None => Beyond
           case Some(t2) => Level2(mem, t2, va))
        case Some(Block(b, mt)) => Mapped((b & 0xFFFF_FFFF_C000_0000) | (va & 0x3FFF_FFFF), mt)
        case _ => Fault
  }

  /** The intended map: the GIC and UART windows (2 MiB each) as device memory and the
      10 MiB code and data window as normal memory, each onto itself; all else faults. */
  function IdentityMap(va: bv64): Translation {
    if GIC_BASE <= va < GIC_BASE + BLOCK_SIZE then Mapped(va, Device)
    else if UART_BASE <= va < UART_BASE + BLOCK_SIZE then Mapped(va, Device)
    else if CODE_BASE <= va < CODE_END then Mapped(va, Normal)
    else Fault
  }

  /** Memory whose table window holds the image of the build. */
  predicate Built(mem: seq<bv64>, loadAddr: bv64) {
    |mem| >= WINDOW_END && mem[WINDOW_START..WINDOW_END] == Image(loadAddr)
  }

  lemma BuiltAt(mem: seq<bv64>, loadAddr: bv64, t: nat, i: nat)
    requires ValidLoadAddr(loadAddr) && Built(mem, loadAddr)
    requires t < TABLE_COUNT && i < ENTRIES
    ensures Decode(mem[TableWord(t) + i]) == Some(Entry(loadAddr, t, i))
  {
    assert mem[TableWord(t) + i] == mem[WINDOW_START..WINDOW_END][t * ENTRIES + i];
    ImageAt(loadAddr, t, i);
    EntryWellFormed(loadAddr, t, i);
    DecodeEncode(Entry(loadAddr, t, i));
  }

  /** The level-2 index of `va` names one of the first five slots exactly when bits [29:21]
      of `va` hold that slot number. */
  lemma L2IndexLow(va: bv64, i: nat)
    requires i < CODE_BLOCKS
    ensures L2Index(va) == i <==> (va >> 21) & 0x1FF == i as bv64
  {
  }

  lemma L2IndexAbove(va: bv64)
    ensures L2Index(va) >= CODE_BLOCKS <==> (va >> 21) & 0x1FF >= 5
  {
  }

  lemma L2IndexGic(va: bv64)
    ensures L2Index(va) == GIC_INDEX <==> (va >> 21) & 0x1FF == 64
  {
  }

  lemma L2IndexUart(va: bv64)
    ensures L2Index(va) == UART_INDEX <==> (va >> 21) & 0x1FF == 72
  {
  }

  /** The level-1 index of `va` is 0 or 1 exactly when bits [38:30] of `va` hold it. */
  lemma L1IndexLow(va: bv64, i: nat)
    requires i < 2
    ensures L1Index(va) == i <==> (va >> 30) & 0x1FF == i as bv64
  {
  }

  lemma GicWindow(va: bv64)
    requires va >> 30 == 0 && (va >> 21) & 0x1FF == 64
    ensures IdentityMap(va) == Mapped(va, Device)
    ensures BlockOutput(GIC_BASE, va) == va
  {
  }

  lemma UartWindow(va: bv64)
    requires va >> 30 == 0 && (va >> 21) & 0x1FF == 72
    ensures IdentityMap(va) == Mapped(va, Device)
    ensures BlockOutput(UART_BASE, va) == va
  {
  }

  lemma PeripheralHole(va: bv64)
    requires va >> 30 == 0 && (va >> 21) & 0x1FF != 64 && (va >> 21) & 0x1FF != 72
    ensures IdentityMap(va) == Fault
  {
  }

  lemma CodeWindow(va: bv64, i: nat)
    requires i < CODE_BLOCKS
    requires va >> 30 == 1 && (va >> 21) & 0x1FF == i as bv64
    ensures IdentityMap(va) == Mapped(va, Normal)
    ensures BlockOutput(((1 as bv64) << 30) + ((i as bv64) << 21), va) == va
  {
  }

  /** Slot i < 5 of l2_table_1 maps the 2 MiB at 1 GiB + i * 2 MiB onto itself. */
  lemma CodeSlot(va: bv64, i: nat)
    requires i < CODE_BLOCKS
    requires va >> 30 == 1 && L2Index(va) == i
    ensures IdentityMap(va) == Mapped(va, Normal)
    ensures BlockOutput(CodeBlock(i), va) == va
  {
    L2IndexLow(va, i);
    CodeBlockIdentity(i);
    CodeWindow(va, i);
  }

  lemma CodeHole(va: bv64)
    requires va >> 30 == 1 && (va >> 21) & 0x1FF >= 5
    ensures IdentityMap(va) == Fault
  {
  }

  lemma HighHole(va: bv64)
    requires va >> 31 != 0
    ensures IdentityMap(va) == Fault
  {
  }

  /** Looking `va` up in level-2 table 1 (l2_table_0, reached for va below 1 GiB). */
  lemma LookupPeripherals(mem: seq<bv64>, loadAddr: bv64, va: bv64)
    requires ValidLoadAddr(loadAddr) && Built(mem, loadAddr)
    requires va >> 30 == 0
    ensures Level2(mem, 1, va) == IdentityMap(va)
  {
    var i := L2Index(va);
    BuiltAt(mem, loadAddr, 1, i);
    L2IndexGic(va);
    L2IndexUart(va);
    if i == GIC_INDEX {
      GicWindow(va);
    } else if i == UART_INDEX {
      UartWindow(va);
    } else {
      PeripheralHole(va);
    }
  }

  /** Looking `va` up in level-2 table 2 (l2_table_1, reached for va in [1 GiB, 2 GiB)). */
  lemma LookupCode(mem: seq<bv64>, loadAddr: bv64, va: bv64)
    requires ValidLoadAddr(loadAddr) && Built(mem, loadAddr)
    requires va >> 30 == 1
    ensures Level2(mem, 2, va) == IdentityMap(va)
  {
    var i := L2Index(va);
    if i < CODE_BLOCKS {
      LookupCodeBlock(mem, loadAddr, va, i);
    } else {
      LookupCodeHole(mem, loadAddr, va);
    }
  }

  lemma LookupCodeHole(mem: seq<bv64>, loadAddr: bv64, va: bv64)
    requires ValidLoadAddr(loadAddr) && Built(mem, loadAddr)
    requires va >> 30 == 1 && L2Index(va) >= CODE_BLOCKS
    ensures Level2(mem, 2, va) == Fault && IdentityMap(va) == Fault
  {
    BuiltAt(mem, loadAddr, 2, L2Index(va));
    L2IndexAbove(va);
    CodeHole(va);
  }

  lemma LookupCodeBlock(mem: seq<bv64>, loadAddr: bv64, va: bv64, i: nat)
    requires ValidLoadAddr(loadAddr) && Built(mem, loadAddr)
    requires va >> 30 == 1 && i < CODE_BLOCKS && L2Index(va) == i
    ensures Level2(mem, 2, va) == IdentityMap(va)
  {
    BuiltAt(mem, loadAddr, 2, i);
    CodeSlot(va, i);
  }

  /** Identity mapping: with the tables built and TTBR0 pointing at l1_table, every virtual
      address in the GIC, UART or code window translates to itself with the window's memory
      type, and every other address faults. */
  lemma TranslateBuilt(mem: seq<bv64>, loadAddr: bv64, va: bv64)
    requires ValidLoadAddr(loadAddr) && Built(mem, loadAddr)
    ensures Translate(mem, loadAddr, TableAddr(loadAddr, 0), va) == IdentityMap(va)
  {
    if va >> 32 != 0 {
      HighHole(va);
      assert va >> (64 - T0SZ) != 0;
    } else {
      var i := L1Index(va);
      L1IndexLow(va, 0);
      L1IndexLow(va, 1);
      LowSpace(va);
      if i == 0 {
        TranslateFirstGiB(mem, loadAddr, va);
      } else if i == 1 {
        TranslateSecondGiB(mem, loadAddr, va);
      } else {
        TranslateUpperGiBs(mem, loadAddr, va);
      }
    }
  }

  /** The first GiB goes through level-1 entry 0 to l2_table_0. */
  lemma TranslateFirstGiB(mem: seq<bv64>, loadAddr: bv64, va: bv64)
    requires ValidLoadAddr(loadAddr) && Built(mem, loadAddr)
    requires va >> 30 == 0 && L1Index(va) == 0
    ensures Translate(mem, loadAddr, TableAddr(loadAddr, 0), va) == IdentityMap(va)
  {
    WindowTableOf(loadAddr, 0);
    WindowTableOf(loadAddr, 1);
    BuiltAt(mem, loadAddr, 0, 0);
    LookupPeripherals(mem, loadAddr, va);
  }

  /** The second GiB goes through level-1 entry 1 to l2_table_1. */
  lemma TranslateSecondGiB(mem: seq<bv64>, loadAddr: bv64, va: bv64)
    requires ValidLoadAddr(loadAddr) && Built(mem, loadAddr)
    requires va >> 30 == 1 && L1Index(va) == 1
    ensures Translate(mem, loadAddr, TableAddr(loadAddr, 0), va) == IdentityMap(va)
  {
    WindowTableOf(loadAddr, 0);
    WindowTableOf(loadAddr, 2);
    BuiltAt(mem, loadAddr, 0, 1);
    LookupCode(mem, loadAddr, va);
  }

  /** The third and fourth GiB meet unused level-1 entries. */
  lemma TranslateUpperGiBs(mem: seq<bv64>, loadAddr: bv64, va: bv64)
    requires ValidLoadAddr(loadAddr) && Built(mem, loadAddr)
    requires va >> 32 == 0 && va >> 31 != 0 && 2 <= L1Index(va)
    ensures Translate(mem, loadAddr, TableAddr(loadAddr, 0), va) == IdentityMap(va)
  {
    WindowTableOf(loadAddr, 0);
    BuiltAt(mem, loadAddr, 0, L1Index(va));
    HighHole(va);
  }

  /** Below 4 GiB the level-1 index is va >> 30, and an index of 2 or 3 has bit 31 set. */
  lemma LowSpace(va: bv64)
    requires va >> 32 == 0
    ensures (va >> 30) & 0x1FF == va >> 30
    ensures (va >> 30 != 0 && va >> 30 != 1) ==> va >> 31 != 0
  {
  }
}
