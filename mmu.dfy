/** mmu_init itself: the build of the three tables in the caller's memory, phase by phase as
    the source performs it, followed by the register sequence that turns translation on.

    Memory is an array of 64-bit words: word k is the word at byte address load_addr + 8 * k,
    so l1_table, l2_table_0 and l2_table_1 start at words TableWord(0), TableWord(1) and
    TableWord(2). Each phase method is specified by a function of the memory before it. */
module Mmu {
  import opened Descriptors
  import opened Tables
  import opened Registers
  import opened Mapping

  /** The word the source's three-statement store leaves: the address, then the type and
      access bits ORed in, then the attribute index ORed in. */
  function Stored(addr: bv64, flags: bv64, attr: bv64): bv64 {
    (addr | flags) | attr
  }

  /** Memory with words [lo, hi) set to the sentinel and every other word as in `s`. */
  function Fill(s: seq<bv64>, lo: nat, hi: nat): (r: seq<bv64>)
    ensures |r| == |s|
  {
    seq(|s|, k requires 0 <= k < |s| => if lo <= k < hi then UNUSED_DESC else s[k])
  }

  /** The three clearing loops: l1_table from slot 2, both level-2 tables entirely. */
  function AfterClear(s: seq<bv64>): (r: seq<bv64>)
    ensures |r| == |s|
  {
    Fill(Fill(Fill(s, TableWord(0) + 2, TableWord(0) + ENTRIES), TableWord(1), TableWord(1) + ENTRIES),
         TableWord(2), TableWord(2) + ENTRIES)
  }

  /** Level-1 slots 0 and 1 point at l2_table_0 and l2_table_1. */
  function AfterLink(s: seq<bv64>, loadAddr: bv64): (r: seq<bv64>)
    requires |s| >= WINDOW_END
    ensures |r| == |s|
  {
    s[TableWord(0) := Stored(TableAddr(loadAddr, 1), PT_PAGE | PT_KERNEL | PT_AF, MT_NORMAL << 2)]
     [TableWord(0) + 1 := Stored(TableAddr(loadAddr, 2), PT_PAGE | PT_KERNEL | PT_AF, MT_NORMAL << 2)]
  }

  /** The GIC and UART device blocks in l2_table_0. */
  function AfterPeripherals(s: seq<bv64>): (r: seq<bv64>)
    requires |s| >= WINDOW_END
    ensures |r| == |s|
  {
    s[TableWord(1) + GIC_INDEX := Stored(GIC_BASE, PT_BLOCK | PT_KERNEL | PT_AF, MT_DEVICE << 2)]
     [TableWord(1) + UART_INDEX := Stored(UART_BASE, PT_BLOCK | PT_KERNEL | PT_AF, MT_DEVICE << 2)]
  }

  /** The word the loop of mmu.c lines 108-112 stores into l2_table_1[i]. */
  function CodeWord(i: nat): bv64
    requires i < CODE_BLOCKS
  {
    Stored(CodeBlock(i), PT_BLOCK | PT_KERNEL | PT_AF, MT_NORMAL << 2)
  }

  /** Memory with the first i code blocks written into l2_table_1. */
  function CodePrefix(s: seq<bv64>, i: nat): (r: seq<bv64>)
    requires i <= CODE_BLOCKS
    ensures |r| == |s|
  {
    seq(|s|, k requires 0 <= k < |s| =>
      if TableWord(2) <= k < TableWord(2) + i then CodeWord(k - TableWord(2)) else s[k])
  }

  /** One more iteration of the code loop stores CodeWord(i) into l2_table_1[i]. */
  lemma CodePrefixStep(s: seq<bv64>, i: nat)
    requires i < CODE_BLOCKS && |s| >= WINDOW_END
    ensures CodePrefix(s, i + 1) == CodePrefix(s, i)[TableWord(2) + i := CodeWord(i)]
  {
  }

  /** The whole build, in the source's order. */
  function Build(s: seq<bv64>, loadAddr: bv64): (r: seq<bv64>)
    requires |s| >= WINDOW_END
    ensures |r| == |s|
  {
    CodePrefix(AfterPeripherals(AfterLink(AfterClear(s), loadAddr)), CODE_BLOCKS)
  }

  /** The slots of l1_table after the build. */
  lemma BuildLevelOne(s: seq<bv64>, loadAddr: bv64, i: nat)
    requires |s| >= WINDOW_END && i < ENTRIES
    ensures Build(s, loadAddr)[TableWord(0) + i] == Encode(Entry(loadAddr, 0, i))
  {
    var k := TableWord(0) + i;
    var c := AfterClear(s);
    var p := AfterPeripherals(AfterLink(c, loadAddr));
    assert Build(s, loadAddr)[k] == p[k];
    if i == 0 {
      StoreTableNormal(TableAddr(loadAddr, 1));
    } else if i == 1 {
      StoreTableNormal(TableAddr(loadAddr, 2));
    } else {
      assert c[k] == UNUSED_DESC;
    }
  }

  /** The slots of l2_table_0 after the build. */
  lemma BuildLevelTwoLow(s: seq<bv64>, loadAddr: bv64, i: nat)
    requires |s| >= WINDOW_END && i < ENTRIES
    ensures Build(s, loadAddr)[TableWord(1) + i] == Encode(Entry(loadAddr, 1, i))
  {
    var k := TableWord(1) + i;
    var c := AfterClear(s);
    var l := AfterLink(c, loadAddr);
    var p := AfterPeripherals(l);
    assert Build(s, loadAddr)[k] == p[k];
    if i == GIC_INDEX {
      StoreBlockDevice(GIC_BASE);
    } else if i == UART_INDEX {
      StoreBlockDevice(UART_BASE);
    } else {
      assert p[k] == l[k] == c[k] == UNUSED_DESC;
    }
  }

  /** The slots of l2_table_1 after the build. */
  lemma BuildLevelTwoHigh(s: seq<bv64>, loadAddr: bv64, i: nat)
    requires |s| >= WINDOW_END && i < ENTRIES
    ensures Build(s, loadAddr)[TableWord(2) + i] == Encode(Entry(loadAddr, 2, i))
  {
    var k := TableWord(2) + i;
    var c := AfterClear(s);
    var p := AfterPeripherals(AfterLink(c, loadAddr));
    if i < CODE_BLOCKS {
      assert Build(s, loadAddr)[k] == CodeWord(i);
      StoreBlockNormal(CodeBlock(i));
    } else {
      assert Build(s, loadAddr)[k] == p[k] == c[k] == UNUSED_DESC;
    }
  }

  /** Every one of the 3 x 512 slots holds the encoding of its entry: the build overwrites the
      whole window, whatever it held before. */
  lemma BuildBuilt(s: seq<bv64>, loadAddr: bv64)
    requires |s| >= WINDOW_END
    ensures Built(Build(s, loadAddr), loadAddr)
  {
    var b := Build(s, loadAddr);
    forall k | 0 <= k < WINDOW_END - WINDOW_START
      ensures b[WINDOW_START..WINDOW_END][k] == Image(loadAddr)[k]
    {
      BuildWindowWord(s, loadAddr, k);
    }
  }

  lemma BuildWindowWord(s: seq<bv64>, loadAddr: bv64, k: nat)
    requires |s| >= WINDOW_END && k < WINDOW_END - WINDOW_START
    ensures Build(s, loadAddr)[WINDOW_START + k] == Image(loadAddr)[k]
  {
    if k < ENTRIES {
      WindowWordLevelOne(s, loadAddr, k);
    } else if k < 2 * ENTRIES {
      WindowWordLevelTwoLow(s, loadAddr, k);
    } else {
      WindowWordLevelTwoHigh(s, loadAddr, k);
    }
  }

  lemma WindowWordLevelOne(s: seq<bv64>, loadAddr: bv64, k: nat)
    requires |s| >= WINDOW_END && k < ENTRIES
    ensures Build(s, loadAddr)[WINDOW_START + k] == Image(loadAddr)[k]
  {
    BuildLevelOne(s, loadAddr, k);
    ImageAt(loadAddr, 0, k);
    assert TableWord(0) + k == WINDOW_START + k && 0 * ENTRIES + k == k;
  }

  lemma WindowWordLevelTwoLow(s: seq<bv64>, loadAddr: bv64, k: nat)
    requires |s| >= WINDOW_END && ENTRIES <= k < 2 * ENTRIES
    ensures Build(s, loadAddr)[WINDOW_START + k] == Image(loadAddr)[k]
  {
    var i := k - ENTRIES;
    BuildLevelTwoLow(s, loadAddr, i);
    ImageAt(loadAddr, 1, i);
    assert TableWord(1) + i == WINDOW_START + k && 1 * ENTRIES + i == k;
  }

  lemma WindowWordLevelTwoHigh(s: seq<bv64>, loadAddr: bv64, k: nat)
    requires |s| >= WINDOW_END && 2 * ENTRIES <= k < TABLE_COUNT * ENTRIES
    ensures Build(s, loadAddr)[WINDOW_START + k] == Image(loadAddr)[k]
  {
    var i := k - 2 * ENTRIES;
    BuildLevelTwoHigh(s, loadAddr, i);
    ImageAt(loadAddr, 2, i);
    assert TableWord(2) + i == WINDOW_START + k && 2 * ENTRIES + i == k;
  }

  /** Nothing outside [load_addr + 1 MiB, load_addr + 1 MiB + 12 KiB) is written. */
  lemma BuildFrame(s: seq<bv64>, loadAddr: bv64, k: nat)
    requires |s| >= WINDOW_END && k < |s|
    requires k < WINDOW_START || WINDOW_END <= k
    ensures Build(s, loadAddr)[k] == s[k]
  {
    var c := AfterClear(s);
    assert c[k] == s[k];
    assert AfterPeripherals(AfterLink(c, loadAddr))[k] == s[k];
  }

  /** The build only depends on load_addr and on what lies outside the window: it is
      idempotent, and memory whose window already holds the image is left as it is. */
  lemma BuildIdempotent(s: seq<bv64>, loadAddr: bv64)
    requires |s| >= WINDOW_END
    ensures Build(Build(s, loadAddr), loadAddr) == Build(s, loadAddr)
    ensures Built(s, loadAddr) ==> Build(s, loadAddr) == s
  {
    var b := Build(s, loadAddr);
    BuildBuilt(s, loadAddr);
    BuildFixesBuilt(b, loadAddr);
    if Built(s, loadAddr) {
      BuildFixesBuilt(s, loadAddr);
    }
  }

  /** Building over memory that already holds the image changes nothing. */
  lemma BuildFixesBuilt(s: seq<bv64>, loadAddr: bv64)
    requires |s| >= WINDOW_END && Built(s, loadAddr)
    ensures Build(s, loadAddr) == s
  {
    var b := Build(s, loadAddr);
    BuildBuilt(s, loadAddr);
    forall k | 0 <= k < |s|
      ensures b[k] == s[k]
    {
      if WINDOW_START <= k < WINDOW_END {
        BuiltWord(b, loadAddr, k);
        BuiltWord(s, loadAddr, k);
      } else {
        BuildFrame(s, loadAddr, k);
      }
    }
  }

  /** In built memory, window word k holds word k - WINDOW_START of the image. */
  lemma BuiltWord(s: seq<bv64>, loadAddr: bv64, k: nat)
    requires Built(s, loadAddr) && WINDOW_START <= k < WINDOW_END
    ensures s[k] == Image(loadAddr)[k - WINDOW_START]
  {
    assert s[k] == s[WINDOW_START..WINDOW_END][k - WINDOW_START];
  }

  /** One clearing loop of mmu.c lines 48-55: slots `from` to 511 of the table at word `base`
      receive the sentinel. */
  method FillUnused(region: array<bv64>, base: nat, from: nat)
    requires from <= ENTRIES && base + ENTRIES <= region.Length
    modifies region
    ensures region[..] == Fill(old(region[..]), base + from, base + ENTRIES)
  {
    var i := from;
    while i <= 511
      invariant from <= i <= ENTRIES
      invariant forall k | 0 <= k < region.Length ::
        region[k] == if base + from <= k < base + i then UNUSED_DESC else old(region[k])
    {
      region[base + i] := UNUSED_DESC;
      i := i + 1;
    }
    assert region[..] == Fill(old(region[..]), base + from, base + ENTRIES);
  }

  /** mmu.c lines 48-55: l1_table[2..511], l2_table_0[0..511] and l2_table_1[0..511] get the sentinel. */
  method ClearTables(region: array<bv64>)
    requires region.Length >= WINDOW_END
    modifies region
    ensures region[..] == AfterClear(old(region[..]))
  {
    FillUnused(region, TableWord(0), 2);
    FillUnused(region, TableWord(1), 0);
    FillUnused(region, TableWord(2), 0);
  }

  /** The three-statement stores produce the encodings: a normal table pointer, a device
      block and a normal block. */
  lemma StoreTableNormal(a: bv64)
    ensures Stored(a, PT_PAGE | PT_KERNEL | PT_AF, MT_NORMAL << 2) == Encode(Table(a, Normal))
  {
    EncodeTableNormal(a);
  }

  lemma StoreBlockDevice(a: bv64)
    ensures Stored(a, PT_BLOCK | PT_KERNEL | PT_AF, MT_DEVICE << 2) == Encode(Block(a, Device))
  {
    EncodeBlockDevice(a);
  }

  lemma StoreBlockNormal(a: bv64)
    ensures Stored(a, PT_BLOCK | PT_KERNEL | PT_AF, MT_NORMAL << 2) == Encode(Block(a, Normal))
  {
    EncodeBlockNormal(a);
  }

  /** The source's three-statement store of a descriptor into word k. */
  method StoreDescriptor(region: array<bv64>, k: nat, addr: bv64, flags: bv64, attr: bv64)
    requires k < region.Length
    modifies region
    ensures region[..] == old(region[..])[k := Stored(addr, flags, attr)]
  {
    ghost var before := region[..];
    region[k] := addr;
    region[k] := region[k] | flags;
    region[k] := region[k] | attr;
    assert region[k] == Stored(addr, flags, attr);
    assert region[..] == before[k := region[k]];
  }

  /** mmu.c lines 83-89: l1_table[0] and l1_table[1] point at the two level-2 tables. */
  method LinkLevelOne(region: array<bv64>, loadAddr: bv64)
    requires region.Length >= WINDOW_END
    modifies region
    ensures region[..] == AfterLink(old(region[..]), loadAddr)
  {
    var l1 := TableWord(0);
    var l2Table0 := TableAddr(loadAddr, 1);
    var l2Table1 := TableAddr(loadAddr, 2);
    StoreDescriptor(region, l1, l2Table0, PT_PAGE | PT_KERNEL | PT_AF, MT_NORMAL << 2);
    StoreDescriptor(region, l1 + 1, l2Table1, PT_PAGE | PT_KERNEL | PT_AF, MT_NORMAL << 2);
  }

  /** mmu.c lines 94-103: the GIC and UART windows as device blocks in l2_table_0. */
  method MapPeripherals(region: array<bv64>)
    requires region.Length >= WINDOW_END
    modifies region
    ensures region[..] == AfterPeripherals(old(region[..]))
  {
    var l2 := TableWord(1);
    StoreDescriptor(region, l2 + 64, 0x0800_0000, PT_BLOCK | PT_KERNEL | PT_AF, MT_DEVICE << 2);
    StoreDescriptor(region, l2 + 72, 0x0900_0000, PT_BLOCK | PT_KERNEL | PT_AF, MT_DEVICE << 2);
  }

  /** mmu.c lines 108-112: l2_table_1[0..4] map the code and data window as normal blocks. */
  method MapCode(region: array<bv64>)
    requires region.Length >= WINDOW_END
    modifies region
    ensures region[..] == CodePrefix(old(region[..]), CODE_BLOCKS)
  {
    var l2 := TableWord(2);
    var i: nat := 0;
    while i < 5
      invariant i <= CODE_BLOCKS
      invariant region[..] == CodePrefix(old(region[..]), i)
    {
      StoreDescriptor(region, l2 + i, CodeBlock(i), PT_BLOCK | PT_KERNEL | PT_AF, MT_NORMAL << 2);
      CodePrefixStep(old(region[..]), i);
      i := i + 1;
    }
  }

  /** mmu.c lines 44-112: the table build. The window ends up holding the image of load_addr, nothing
      outside it changes, and building over an already built window changes nothing. */
  method BuildTables(region: array<bv64>, loadAddr: bv64)
    requires region.Length >= WINDOW_END
    modifies region
    ensures region[..] == Build(old(region[..]), loadAddr)
    ensures Built(region[..], loadAddr)
    ensures forall k | 0 <= k < region.Length && (k < WINDOW_START || WINDOW_END <= k) :: region[k] == old(region[k])
    ensures Built(old(region[..]), loadAddr) ==> region[..] == old(region[..])
  {
    ghost var before := region[..];
    ClearTables(region);
    LinkLevelOne(region, loadAddr);
    MapPeripherals(region);
    MapCode(region);
    BuildBuilt(before, loadAddr);
    BuildIdempotent(before, loadAddr);
    forall k | 0 <= k < region.Length && (k < WINDOW_START || WINDOW_END <= k)
      ensures region[k] == before[k]
    {
      BuildFrame(before, loadAddr, k);
    }
  }

  /** mmu_init: builds the tables, then runs the enable sequence; `sctlrRead` is the value the
      read of SCTLR_EL1 returns. The TTBR0 value logged is l1_table's 4 KiB-aligned address, the TCR value has
      the T0SZ the lookup assumes, and through those tables every virtual address translates as
      IdentityMap says. The function returns 0. */
  method MmuInit(region: array<bv64>, loadAddr: bv64, sctlrRead: bv64) returns (status: int, log: seq<Event>)
    requires ValidLoadAddr(loadAddr)
    requires region.Length >= WINDOW_END
    modifies region
    ensures status == 0
    ensures region[..] == Build(old(region[..]), loadAddr)
    ensures Built(region[..], loadAddr)
    ensures forall k | 0 <= k < region.Length && (k < WINDOW_START || WINDOW_END <= k) :: region[k] == old(region[k])
    ensures log == EnableSequence(TableAddr(loadAddr, 0), sctlrRead) && OrderedEnable(log)
    ensures log[2].value & 0x3F == T0SZ
    ensures Aligned4K(log[1].value)
    ensures forall va :: Translate(region[..], loadAddr, log[1].value, va) == IdentityMap(va)
  {
    BuildTables(region, loadAddr);
    var l1Table := TableAddr(loadAddr, 0);
    log := EnableTranslation(l1Table, sctlrRead);
    Offset0Facts(loadAddr);
    forall va
      ensures Translate(region[..], loadAddr, log[1].value, va) == IdentityMap(va)
    {
      TranslateBuilt(region[..], loadAddr, va);
    }
    status := 0;
  }
}
