# mmu_init for the FreeRTOS Cortex-A57 (QEMU ARMv8) demo, in Dafny

This project models `mmu_init(load_addr)` from the FreeRTOS Cortex-A57 64-bit demo and proves
properties of it. The function builds a two-level VMSAv8-64 translation-table hierarchy (4 KiB
granule) in memory the caller reserves after `load_addr`:

- `l1_table` sits at `load_addr + 1 MiB`;
- `l2_table_0` sits 4 KiB after it;
- `l2_table_1` sits 8 KiB after it.

Every unused slot is filled with a sentinel. Level-1 entries 0 and 1 point at the two level-2
tables. `l2_table_0` maps the GIC and UART windows as device blocks. `l2_table_1` maps five 2 MiB
normal blocks from `0x40000000`. The function then loads TTBR0_EL1, TCR_EL1 and MAIR_EL1 and sets
M and C in SCTLR_EL1.

The modules follow the source's structure:

- `Descriptors`: the descriptor constants, a typed `Descriptor` (sentinel, table pointer, block),
  its encoding as the source ORs it together, and a decoding that is its partner.
- `Tables`: where the three tables lie relative to `load_addr`, and the entry every slot holds
  after the build (`Entry`, and `Image` for the whole 3 x 512-word window).
- `Registers`: the TCR_EL1, MAIR_EL1 and SCTLR_EL1 values, and the barrier and system-register
  sequence as a log of events.
- `Mapping`: an abstract two-level lookup over memory, used as the reference for "the built
  tables give the identity map of the intended windows".
- `Mmu`: the imperative build on an `array<bv64>`, phase by phase as the source does it.
  - Memory word k is the 8 bytes at `load_addr + 8k`.
  - Each phase method is specified by a function of the memory before it.
  - `MmuInit` composes the build with the enable sequence.

The caller's memory is the array. `load_addr` is a `bv64`, and the source validates nothing about
it. `MmuInit` requires it to be 4 KiB aligned, so that ORing the tag bits into `l1_table[0]` and
`[1]` keeps the level-2 table addresses and the tables are page aligned. It also requires the
table window to lie below 2^64, so that the stores at `load_addr + 8k` do not wrap. `BuildTables`
needs neither: it writes the same 12 KiB window for any `load_addr`. The value read from
SCTLR_EL1 is a parameter.

Where the source's comments and its code disagree, the model follows the code:

- the T0SZ comment says 33, but the value written is 32;
- the comment on bit 31 of TCR calls it IPS, but that bit is part of TG1;
- the MAIR comments say "non-alloc" and "nGnRE", but 0xFF is write-back read/write-allocate and
  0x00 is Device-nGnRnE;
- the code-window comment says 20 MB, but the loop writes 5 blocks, which is 10 MiB.

## Model

| member | source | states |
|---|---|---|
| Descriptors.AttrIndex | FreeRTOS/Demo/CORTEX_A57_64-bit/mmu.c:34-35 | the attribute index of a profile is below 8, and it is MT_NORMAL exactly for normal memory |
| Descriptors.EncodeValidBit | FreeRTOS/Demo/CORTEX_A57_64-bit/mmu.c:10-23 | an encoded entry has bit 0 clear exactly when it is the sentinel; table and block entries carry the access flag; table entries carry type 0b11 |
| Descriptors.DecodeFacts | FreeRTOS/Demo/CORTEX_A57_64-bit/mmu.c:10-35 | decoding yields the sentinel exactly for a word with bit 0 clear, and never yields an unaligned address |
| Descriptors.DecodeEncode | FreeRTOS/Demo/CORTEX_A57_64-bit/mmu.c:16-35 | every well-formed descriptor decodes back to itself after encoding (address, type and attribute index are recoverable) |
| Descriptors.TagValues | FreeRTOS/Demo/CORTEX_A57_64-bit/mmu.c:16-35 | the ORed tag bits are 0x403 for a normal table pointer, 0x401 for a normal block and 0x405 for a device block |
| Descriptors.TagsFields | FreeRTOS/Demo/CORTEX_A57_64-bit/mmu.c:19-35 | the tags stay in bits [11:2], set the access flag and carry the attribute index in bits [4:2] |
| Tables.EntryWellFormed | FreeRTOS/Demo/CORTEX_A57_64-bit/mmu.c:44-46 | every address the build stores in a descriptor is 4 KiB aligned |
| Tables.SentinelCoverage | FreeRTOS/Demo/CORTEX_A57_64-bit/mmu.c:48-55 | a slot holds the sentinel exactly when the build writes no descriptor there, and has bit 0 set exactly when it does |
| Tables.LevelOneEntry0 | FreeRTOS/Demo/CORTEX_A57_64-bit/mmu.c:83-85 | `l1_table[0] == (load_addr + 0x101000) \| 0x403` |
| Tables.LevelOneEntry1 | FreeRTOS/Demo/CORTEX_A57_64-bit/mmu.c:87-89 | `l1_table[1] == (load_addr + 0x102000) \| 0x403` |
| Tables.PeripheralEntries | FreeRTOS/Demo/CORTEX_A57_64-bit/mmu.c:94-103 | `l2_table_0[64] == 0x08000000 \| 0x405` and `l2_table_0[72] == 0x09000000 \| 0x405` |
| Tables.CodeEntries | FreeRTOS/Demo/CORTEX_A57_64-bit/mmu.c:108-112 | `l2_table_1[i] == (0x40000000 + i * 0x200000) \| 0x401` for i < 5 |
| Tables.EntryIdentity | FreeRTOS/Demo/CORTEX_A57_64-bit/mmu.c:83-112 | table pointers only in l1 slots 0 and 1, to tables 1 and 2; every block outputs the address its slot covers, `(t-1) GiB + i * 2 MiB` |
| Tables.CodeBlockIdentity | FreeRTOS/Demo/CORTEX_A57_64-bit/mmu.c:108-109 | code block i outputs 1 GiB + i * 2 MiB, the address slot i of the second level-2 table covers |
| Tables.CodeBlocksContiguous | FreeRTOS/Demo/CORTEX_A57_64-bit/mmu.c:108-109 | consecutive code blocks are exactly 2 MiB apart |
| Registers.TcrValue | FreeRTOS/Demo/CORTEX_A57_64-bit/mmu.c:118-127 | T0SZ 32, EPD0 clear, IRGN0 = ORGN0 = 1, SH0 = 3, TG0 = 0, EPD1 set, bit 31 set, IPS 0, TBI0 clear; the value is 0x80803520 |
| Registers.MairValue | FreeRTOS/Demo/CORTEX_A57_64-bit/mmu.c:130-131 | attribute 0 (normal) is 0xFF, attribute 1 (device) is 0x00, and so are all the others |
| Registers.SctlrEnable | FreeRTOS/Demo/CORTEX_A57_64-bit/mmu.c:135-136 | the written SCTLR_EL1 has M and C set and every other bit as read |
| Registers.SetMAndC | FreeRTOS/Demo/CORTEX_A57_64-bit/mmu.c:136 | setting bit 0 and then bit 2 is SctlrEnable |
| Registers.EnableSequenceOrdered | FreeRTOS/Demo/CORTEX_A57_64-bit/mmu.c:115-137 | the source's event order has a data barrier before every register write, TTBR0, TCR and MAIR written before the isb, and SCTLR read then written last |
| Registers.EnableTranslation | FreeRTOS/Demo/CORTEX_A57_64-bit/mmu.c:115-137 | the method emits exactly that sequence, which is ordered, with TTBR0 receiving the table base |
| Mapping.WindowTableOf | FreeRTOS/Demo/CORTEX_A57_64-bit/mmu.c:44-46 | the three tables start at distinct addresses, and each is recognised as itself |
| Mapping.BuiltAt | FreeRTOS/Demo/CORTEX_A57_64-bit/mmu.c:44-112 | in built memory every slot decodes to its entry |
| Mapping.CodeSlot | FreeRTOS/Demo/CORTEX_A57_64-bit/mmu.c:108-109 | code block i maps the 2 MiB its slot covers onto the same addresses as normal memory |
| Mapping.LookupPeripherals | FreeRTOS/Demo/CORTEX_A57_64-bit/mmu.c:94-103 | below 1 GiB the level-2 step through l2_table_0 gives the identity map of the GIC and UART windows and a fault elsewhere |
| Mapping.LookupCode | FreeRTOS/Demo/CORTEX_A57_64-bit/mmu.c:108-112 | between 1 GiB and 2 GiB the level-2 step through l2_table_1 gives the identity map of the code window and a fault elsewhere |
| Mapping.TranslateBuilt | FreeRTOS/Demo/CORTEX_A57_64-bit/mmu.c:44-116 | with the tables built and TTBR0 at l1_table, every virtual address translates as IdentityMap says: GIC and UART as device memory, the 10 MiB code window as normal memory, everything else a fault |
| Mmu.CodePrefixStep | FreeRTOS/Demo/CORTEX_A57_64-bit/mmu.c:108-112 | one more loop iteration stores the next code block and changes nothing else |
| Mmu.BuildLevelOne | FreeRTOS/Demo/CORTEX_A57_64-bit/mmu.c:48-89 | after the build, each l1_table slot holds its entry's encoding |
| Mmu.BuildLevelTwoLow | FreeRTOS/Demo/CORTEX_A57_64-bit/mmu.c:51-103 | after the build, each l2_table_0 slot holds its entry's encoding |
| Mmu.BuildLevelTwoHigh | FreeRTOS/Demo/CORTEX_A57_64-bit/mmu.c:54-112 | after the build, each l2_table_1 slot holds its entry's encoding |
| Mmu.BuildBuilt | FreeRTOS/Demo/CORTEX_A57_64-bit/mmu.c:44-112 | whatever the memory held, the window afterwards is exactly the image of load_addr |
| Mmu.BuildFrame | FreeRTOS/Demo/CORTEX_A57_64-bit/mmu.c:44-112 | no word outside the 12 KiB table window changes |
| Mmu.BuildIdempotent | FreeRTOS/Demo/CORTEX_A57_64-bit/mmu.c:44-112 | building twice is building once, and building over memory that already holds the image changes nothing |
| Mmu.BuildFixesBuilt | FreeRTOS/Demo/CORTEX_A57_64-bit/mmu.c:44-112 | building over memory that already holds the image leaves it unchanged |
| Mmu.StoreTableNormal | FreeRTOS/Demo/CORTEX_A57_64-bit/mmu.c:83-89 | the three-statement store of a table pointer produces the encoding of a normal table entry |
| Mmu.StoreBlockDevice | FreeRTOS/Demo/CORTEX_A57_64-bit/mmu.c:94-103 | the three-statement store of a device block produces the encoding of a device block entry |
| Mmu.StoreBlockNormal | FreeRTOS/Demo/CORTEX_A57_64-bit/mmu.c:109-111 | the three-statement store of a code block produces the encoding of a normal block entry |
| Mmu.FillUnused | FreeRTOS/Demo/CORTEX_A57_64-bit/mmu.c:48-55 | one clearing loop puts the sentinel into the given slots of one table and leaves every other word as it was |
| Mmu.ClearTables | FreeRTOS/Demo/CORTEX_A57_64-bit/mmu.c:48-55 | the three clearing loops together |
| Mmu.StoreDescriptor | FreeRTOS/Demo/CORTEX_A57_64-bit/mmu.c:83-85 | a store followed by two in-place ORs leaves `(addr \| flags) \| attr` in that word and changes nothing else |
| Mmu.LinkLevelOne | FreeRTOS/Demo/CORTEX_A57_64-bit/mmu.c:83-89 | l1_table slots 0 and 1 receive the level-2 table pointers; nothing else changes |
| Mmu.MapPeripherals | FreeRTOS/Demo/CORTEX_A57_64-bit/mmu.c:94-103 | l2_table_0 slots 64 and 72 receive the GIC and UART device blocks; nothing else changes |
| Mmu.MapCode | FreeRTOS/Demo/CORTEX_A57_64-bit/mmu.c:108-112 | l2_table_1 slots 0 to 4 receive the code blocks; nothing else changes |
| Mmu.BuildTables | FreeRTOS/Demo/CORTEX_A57_64-bit/mmu.c:44-112 | the build leaves the window holding the image of load_addr and nothing else changed; over an already built window it changes nothing |
| Mmu.MmuInit | FreeRTOS/Demo/CORTEX_A57_64-bit/mmu.c:37-140 | returns 0; the tables are built and nothing outside them changes; the register log is the ordered enable sequence with TTBR0 at l1_table (4 KiB aligned) and T0SZ 32; through the built tables every address translates as IdentityMap says |

## Left out

- The barriers and system-register instructions (`dsb`, `isb`, `msr`, `mrs`) have no hardware semantics here: they are recorded as events in a log, and the value read from SCTLR_EL1 is a parameter.
- The disabled single-table variant (lines 57-68) is not compiled into the source, so it is not modelled.
- The unused local pointer at line 42, the unused variable `b`, and the unused macros (`PAGE_SIZE`, `PT_USER`, `PT_RW`, `PT_RO`, `PT_NX`, `PT_OSH`, `PT_ISH`, `PT_MEM`, `PT_DEV`, `PT_NC`) have no effect on what the function does.
- The source does not validate `load_addr`. MmuInit requires 4 KiB alignment, without which the ORed tag bits would corrupt the level-2 table addresses in `l1_table[0]` and `[1]`. It also requires a table window below 2^64, without which the stores at `load_addr + 8k` would wrap. What the source does for other values of `load_addr` is not modelled.
- Mapping.Translate is an abstract two-level reading of the tables, not the architectural walk. It does not model level-3 tables, the upper attribute bits, TTBR1, or table pointers outside the 12 KiB window (those give `Beyond`). It also fixes T0SZ at 32, the value TcrValue programs, rather than reading it from the TCR value.
- The hardware meaning of the TCR and MAIR fields beyond their bit values is not modelled; the contracts state the bits.
- The 64-bit `unsigned long` arithmetic for the table addresses is modelled as `bv64` addition. The 32-bit product `i * 0x200000` in the code loop is modelled as a `bv32` multiplication; it cannot wrap for i < 5.
