/** VMSAv8-64 translation-table entries for the 4 KiB granule, as mmu_init writes them:
    the descriptor constants, a typed view of an entry, its bit encoding and its decoding. */
module Descriptors {

  datatype Option<T> = None | Some(value: T)

  /** Fill pattern for every slot that must never be walked; bit 0 (valid) is clear. */
  const UNUSED_DESC: bv64 := 0x6EBA_AD0B_BADB_A6E0

  /** Descriptor type in bits [1:0]: next-level table (4 KiB granule) or 2 MiB block. */
  const PT_PAGE: bv64 := 0x3
  const PT_BLOCK: bv64 := 0x1
  /** Privileged-only access: the AP[1] bit (bit 6) left clear. */
  const PT_KERNEL: bv64 := 0
  /** Access flag, bit 10. */
  const PT_AF: bv64 := 1 << 10

  /** Attribute indices into MAIR_EL1, placed in AttrIndx, bits [4:2]. */
  const MT_NORMAL: bv64 := 0
  const MT_DEVICE: bv64 := 1

  /** Output/next-level address bits: everything above the low 12 bits. */
  const ADDR_MASK: bv64 := 0xFFFF_FFFF_FFFF_F000

  /** The two memory profiles a descriptor can select. */
  datatype MemType = Normal | Device

  function AttrIndex(mt: MemType): (k: bv64)
    ensures k < 8
    ensures (k == MT_NORMAL) == (mt == Normal)
  {
    match mt
    case Normal => MT_NORMAL
    case Device => MT_DEVICE
  }

  /** A translation-table entry: the sentinel, a pointer to a next-level table, or a block mapping. */
  datatype Descriptor =
    | Unused
    | Table(next: bv64, mt: MemType)
    | Block(output: bv64, mt: MemType)

  predicate Aligned4K(a: bv64) {
    a & 0xFFF == 0
  }

  /** The address of a table or block descriptor leaves the low 12 bits free for tags. */
  predicate WellFormed(d: Descriptor) {
    match d
    case Unused => true
    case Table(a, _) => Aligned4K(a)
    case Block(a, _) => Aligned4K(a)
  }

  /** The attribute field of a table or block entry: PT_KERNEL | PT_AF | (attr << 2). */
  function Tags(mt: MemType): bv64 {
    PT_KERNEL | PT_AF | (AttrIndex(mt) << 2)
  }

  /** The tags occupy bits [11:2] only, carry the access flag and the attribute index. */
  lemma TagsFields(mt: MemType)
    ensures Tags(mt) & 0xFFFF_FFFF_FFFF_F003 == 0
    ensures Tags(mt) & PT_AF == PT_AF
    ensures (Tags(mt) >> 2) & 7 == AttrIndex(mt)
  {
  }

  /** The 64-bit value stored for a descriptor: `addr | type | PT_KERNEL | PT_AF | (attr << 2)`. */
  function Encode(d: Descriptor): bv64 {
    match d
    case Unused => UNUSED_DESC
    case Table(a, mt) => a | PT_PAGE | Tags(mt)
    case Block(a, mt) => a | PT_BLOCK | Tags(mt)
  }

  /** Only the sentinel has the valid bit clear; every table or block entry has it set, together
      with the access flag, and a table entry carries type 0b11 in bits [1:0]. */
  lemma EncodeValidBit(d: Descriptor)
    ensures (Encode(d) & 1 == 0) <==> d.Unused?
    ensures !d.Unused? ==> Encode(d) & PT_AF == PT_AF
    ensures d.Table? ==> Encode(d) & 3 == PT_PAGE
  {
    if !d.Unused? {
      TagsFields(d.mt);
    }
  }

  /** Reads an entry back: bit 0 clear is an unused slot; otherwise the access flag must be set
      and AttrIndx must name one of the two profiles, and bit 1 tells a table from a block. */
  function Decode(x: bv64): Option<Descriptor> {
    if x & 1 == 0 then Some(Unused)
    else if x & PT_AF == 0 then None
    else
      var attr := (x >> 2) & 7;
      if attr == MT_NORMAL || attr == MT_DEVICE then
        var mt := if attr == MT_NORMAL then Normal else Device;
        if x & 2 == 2 then Some(Table(x & ADDR_MASK, mt)) else Some(Block(x & ADDR_MASK, mt))
      else None
  }

  /** Decoding never yields an unaligned address, and yields Unused exactly for an entry whose
      valid bit is clear. */
  lemma DecodeFacts(x: bv64)
    ensures Decode(x) == Some(Unused) <==> x & 1 == 0
    ensures Decode(x).Some? ==> WellFormed(Decode(x).value)
  {
  }

  /** The fields of `a | ty | tags` for an aligned address, a type in bits [1:0] and tags in bits [11:2]. */
  lemma TaggedFields(a: bv64, ty: bv64, tags: bv64)
    requires a & 0xFFF == 0 && ty & 0xFFFF_FFFF_FFFF_FFFC == 0 && tags & 0xFFFF_FFFF_FFFF_F003 == 0
    ensures (a | ty | tags) & ADDR_MASK == a
    ensures (a | ty | tags) & 3 == ty
    ensures (a | ty | tags) & 0xFFC == tags
  {
  }

  /** Every well-formed descriptor is read back as itself. */
  lemma DecodeEncode(d: Descriptor)
    requires WellFormed(d)
    ensures Decode(Encode(d)) == Some(d)
  {
    match d
    case Unused =>
    case Table(a, mt) =>
      TagsFields(mt);
      TaggedFields(a, PT_PAGE, Tags(mt));
    case Block(a, mt) =>
      TagsFields(mt);
      TaggedFields(a, PT_BLOCK, Tags(mt));
  }

  /** The tag values the source ORs in: 0x403 for a normal table pointer,
      0x401 for a normal block and 0x405 for a device block. */
  lemma TagValues()
    ensures Tags(Normal) | PT_PAGE == 0x403
    ensures Tags(Normal) | PT_BLOCK == 0x401
    ensures Tags(Device) | PT_BLOCK == 0x405
  {
  }

  /** A normal table pointer is stored as its address ORed with 0x403. */
  lemma EncodeTableNormal(a: bv64)
    ensures Encode(Table(a, Normal)) == a | 0x403
  {
  }

  /** A normal block is stored as its address ORed with 0x401. */
  lemma EncodeBlockNormal(a: bv64)
    ensures Encode(Block(a, Normal)) == a | 0x401
  {
  }

  /** A device block is stored as its address ORed with 0x405. */
  lemma EncodeBlockDevice(a: bv64)
    ensures Encode(Block(a, Device)) == a | 0x405
  {
  }
}
