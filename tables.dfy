/** The translation-table hierarchy mmu_init builds: where the three tables live relative to
    load_addr, and the descriptor every slot holds once the build is complete. */
module Tables {
  import opened Descriptors

  const SZ_1M: nat := 0x10_0000
  const SZ_4K: nat := 0x1000
  /** Entries per table: 512 entries of 8 bytes fill one 4 KiB page. */
  const ENTRIES: nat := 512
  /** Bytes covered by one level-2 block (2 MiB). */
  const BLOCK_SIZE: bv64 := 0x20_0000

  /** The peripheral windows: GIC and UART, each one device block in l2_table_0. */
  const GIC_BASE: bv64 := 0x0800_0000
  const GIC_INDEX: nat := 64
  const UART_BASE: bv64 := 0x0900_0000
  const UART_INDEX: nat := 72
  /** The code and data window: CODE_BLOCKS normal blocks from the start of l2_table_1. */
  const CODE_BASE: bv64 := 0x4000_0000
  const CODE_BLOCKS: nat := 5
  /** First address past the code window: CODE_BASE + CODE_BLOCKS * 2 MiB. */
  const CODE_END: bv64 := 0x40A0_0000

  /** Table 0 is l1_table, table 1 l2_table_0, table 2 l2_table_1. */
  const TABLE_COUNT: nat := 3

  /** Largest load_addr for which `load_addr + 1 MiB + 12 KiB` does not wrap around 2^64. */
  const MAX_LOAD_ADDR: bv64 := 0xFFFF_FFFF_FFEF_D000

  /** What the caller must supply: a 4 KiB-aligned base whose table window fits below 2^64. */
  predicate ValidLoadAddr(loadAddr: bv64) {
    loadAddr & 0xFFF == 0 && loadAddr <= MAX_LOAD_ADDR
  }

  /** The words the build writes: [load_addr + 1 MiB, load_addr + 1 MiB + 12 KiB). */
  const WINDOW_START: nat := SZ_1M / 8
  const WINDOW_END: nat := (SZ_1M + TABLE_COUNT * SZ_4K) / 8

  /** Index, in 8-byte words from load_addr, of entry 0 of table t: table t starts
      1 MiB + t * 4 KiB bytes after load_addr, as TableAddr computes it in 64 bits. */
  function TableWord(t: nat): nat
    requires t < TABLE_COUNT
  {
    WINDOW_START + t * ENTRIES
  }

  /** The address of table t, computed in 64 bits as the source's pointer arithmetic does. */
  function TableAddr(loadAddr: bv64, t: nat): bv64
    requires t < TABLE_COUNT
  {
    if t == 0 then loadAddr + 0x10_0000
    else if t == 1 then loadAddr + 0x10_1000
    else loadAddr + 0x10_2000
  }

  /** For a valid load_addr the three table addresses are 4 KiB aligned and the sums
      load_addr + offset do not wrap around 2^64. */
  lemma Offset0Facts(loadAddr: bv64)
    requires ValidLoadAddr(loadAddr)
    ensures Aligned4K(loadAddr + 0x10_0000) && loadAddr < loadAddr + 0x10_0000
  {
  }

  lemma Offset1Facts(loadAddr: bv64)
    requires ValidLoadAddr(loadAddr)
    ensures Aligned4K(loadAddr + 0x10_1000) && loadAddr < loadAddr + 0x10_1000
  {
  }

  lemma Offset2Facts(loadAddr: bv64)
    requires ValidLoadAddr(loadAddr)
    ensures Aligned4K(loadAddr + 0x10_2000) && loadAddr < loadAddr + 0x10_2000
  {
  }

  /** Output address of the i-th code block, 0x40000000 + i * 2 MiB; the product is taken in
      32 bits, as the source's `uint32_t i` makes it. */
  function CodeBlock(i: nat): bv64
    requires i < CODE_BLOCKS
  {
    CODE_BASE + (((i as bv32) * 0x20_0000) as bv64)
  }

  /** The descriptor in slot i of table t after the build. */
  function Entry(loadAddr: bv64, t: nat, i: nat): Descriptor
    requires t < TABLE_COUNT && i < ENTRIES
  {
    if t == 0 then
      if i == 0 then Table(TableAddr(loadAddr, 1), Normal)
      else if i == 1 then Table(TableAddr(loadAddr, 2), Normal)
      else Unused
    else if t == 1 then
      if i == GIC_INDEX then Block(GIC_BASE, Device)
      else if i == UART_INDEX then Block(UART_BASE, Device)
      else Unused
    else
      if i < CODE_BLOCKS then Block(CodeBlock(i), Normal)
      else Unused
  }

  /** Every descriptor the build writes has a 4 KiB-aligned address. */
  lemma EntryWellFormed(loadAddr: bv64, t: nat, i: nat)
    requires ValidLoadAddr(loadAddr)
    requires t < TABLE_COUNT && i < ENTRIES
    ensures WellFormed(Entry(loadAddr, t, i))
  {
    if t == 0 && i == 0 {
      Offset1Facts(loadAddr);
    } else if t == 0 && i == 1 {
      Offset2Facts(loadAddr);
    } else if t == 2 && i < CODE_BLOCKS {
      CodeBlockIdentity(i);
    }
  }

  /** Word k of the table window after the build: each table takes 512 consecutive words. */
  function Word(loadAddr: bv64, k: nat): bv64
    requires k < TABLE_COUNT * ENTRIES
  {
    if k < ENTRIES then Encode(Entry(loadAddr, 0, k))
    else if k < 2 * ENTRIES then Encode(Entry(loadAddr, 1, k - ENTRIES))
    else Encode(Entry(loadAddr, 2, k - 2 * ENTRIES))
  }

  /** The 3 x 512 words of the table window after the build, in memory order. */
  function Image(loadAddr: bv64): (s: seq<bv64>)
    ensures |s| == WINDOW_END - WINDOW_START
  {
    seq(TABLE_COUNT * ENTRIES, k requires 0 <= k < TABLE_COUNT * ENTRIES => Word(loadAddr, k))
  }

  /** The slots the build writes a descriptor into; every other slot keeps the sentinel. */
  predicate Written(t: nat, i: nat) {
    (t == 0 && i < 2) || (t == 1 && (i == GIC_INDEX || i == UART_INDEX)) || (t == 2 && i < CODE_BLOCKS)
  }

  /** Each word of the image is the encoding of the entry at that table and slot. */
  lemma ImageAt(loadAddr: bv64, t: nat, i: nat)
    requires t < TABLE_COUNT && i < ENTRIES
    ensures Image(loadAddr)[t * ENTRIES + i] == Encode(Entry(loadAddr, t, i))
  {
    var k := t * ENTRIES + i;
    assert Image(loadAddr)[k] == Word(loadAddr, k);
    WordAt(loadAddr, t, i);
  }

  lemma WordAt(loadAddr: bv64, t: nat, i: nat)
    requires t < TABLE_COUNT && i < ENTRIES
    ensures Word(loadAddr, t * ENTRIES + i) == Encode(Entry(loadAddr, t, i))
  {
    if t == 0 {
      assert t * ENTRIES + i == i;
    } else if t == 1 {
      assert t * ENTRIES + i == ENTRIES + i;
    } else {
      assert t * ENTRIES + i == 2 * ENTRIES + i;
    }
  }

  /** Sentinel coverage: a slot holds UNUSED_DESC exactly when the build wrote no descriptor
      there, and only the written slots have the valid bit set. */
  lemma SentinelCoverage(loadAddr: bv64, t: nat, i: nat)
    requires t < TABLE_COUNT && i < ENTRIES
    ensures Image(loadAddr)[t * ENTRIES + i] == UNUSED_DESC <==> !Written(t, i)
    ensures Image(loadAddr)[t * ENTRIES + i] & 1 == 1 <==> Written(t, i)
  {
    ImageAt(loadAddr, t, i);
    EncodeValidBit(Entry(loadAddr, t, i));
  }

  /** Level-1 entry 0 points at l2_table_0, at load_addr + 1 MiB + 4 KiB, with tag bits 0x403. */
  lemma LevelOneEntry0(loadAddr: bv64)
    ensures Image(loadAddr)[0] == (loadAddr + 0x10_1000) | 0x403
  {
    ImageAt(loadAddr, 0, 0);
    assert Entry(loadAddr, 0, 0) == Table(TableAddr(loadAddr, 1), Normal);
    EncodeTableNormal(TableAddr(loadAddr, 1));
  }

  /** Level-1 entry 1 points at l2_table_1, at load_addr + 1 MiB + 8 KiB, with tag bits 0x403. */
  lemma LevelOneEntry1(loadAddr: bv64)
    ensures Image(loadAddr)[1] == (loadAddr + 0x10_2000) | 0x403
  {
    ImageAt(loadAddr, 0, 1);
    assert Entry(loadAddr, 0, 1) == Table(TableAddr(loadAddr, 2), Normal);
    EncodeTableNormal(TableAddr(loadAddr, 2));
  }

  /** The GIC and UART blocks are device blocks (tag bits 0x405) at slots 64 and 72 of l2_table_0. */
  lemma PeripheralEntries(loadAddr: bv64)
    ensures Image(loadAddr)[ENTRIES + 64] == 0x0800_0000 | 0x405
    ensures Image(loadAddr)[ENTRIES + 72] == 0x0900_0000 | 0x405
  {
    ImageAt(loadAddr, 1, 64);
    ImageAt(loadAddr, 1, 72);
    EncodeBlockDevice(GIC_BASE);
    EncodeBlockDevice(UART_BASE);
  }

  /** l2_table_1 starts with five normal blocks (tag bits 0x401) 2 MiB apart from 0x40000000. */
  lemma CodeEntries(loadAddr: bv64, i: nat)
    requires i < CODE_BLOCKS
    ensures Image(loadAddr)[2 * ENTRIES + i] == (0x4000_0000 + (i as bv64) * 0x20_0000) | 0x401
  {
    ImageAt(loadAddr, 2, i);
    EncodeBlockNormal(CodeBlock(i));
    CodeBlockIdentity(i);
  }

  /** Identity mapping, slot by slot: level-1 entry j points at the level-2 table j + 1, which
      covers virtual addresses [j GiB, (j+1) GiB), and each block in it maps the 2 MiB its slot
      covers onto the same physical address: `(t - 1) * 1 GiB + i * 2 MiB`. */
  lemma EntryIdentity(loadAddr: bv64, t: nat, i: nat)
    requires t < TABLE_COUNT && i < ENTRIES
    ensures Entry(loadAddr, t, i).Table? ==>
      t == 0 && i < 2 && Entry(loadAddr, t, i).next == TableAddr(loadAddr, i + 1)
    ensures Entry(loadAddr, t, i).Block? ==>
      t > 0 && Entry(loadAddr, t, i).output == (((t - 1) as bv64) << 30) + ((i as bv64) << 21)
  {
    if t == 1 && i == GIC_INDEX {
      assert Entry(loadAddr, t, i) == Block(0x0800_0000, Device);
      assert 0x0800_0000 == ((0 as bv64) << 30) + ((64 as bv64) << 21);
    } else if t == 1 && i == UART_INDEX {
      assert Entry(loadAddr, t, i) == Block(0x0900_0000, Device);
      assert 0x0900_0000 == ((0 as bv64) << 30) + ((72 as bv64) << 21);
    } else if t == 2 && i < CODE_BLOCKS {
      assert Entry(loadAddr, t, i) == Block(CodeBlock(i), Normal);
      CodeBlockIdentity(i);
    }
  }

  /** The code blocks sit in l2_table_1, reached through level-1 entry 1. */
  lemma CodeBlockIdentity(i: nat)
    requires i < CODE_BLOCKS
    ensures CodeBlock(i) == ((1 as bv64) << 30) + ((i as bv64) << 21)
  {
  }

  /** Consecutive code blocks map output addresses exactly 2 MiB apart. */
  lemma CodeBlocksContiguous(i: nat)
    requires i + 1 < CODE_BLOCKS
    ensures CodeBlock(i + 1) == CodeBlock(i) + BLOCK_SIZE
  {
  }
}
