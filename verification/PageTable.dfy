/** The page table of section descriptors, and its agreement with the allocator's two regions. */
module PageTables {
  import opened Chunks

  const ENTRIES := 4096
  const SECTION_SIZE := 0x10_0000

  const SECTION_KERNEL := 0x9140e
  const SECTION_USER := 0x90c0e
  const SECTION_1GB := 0x90416
  const SECTION_2GB := 0x90416
  const SECTION_DEFAULT := 0x90c16

  /** A section descriptor: the base address in the top twelve bits, attributes below. */
  function Descriptor(i: nat, section: nat): nat {
    i * SECTION_SIZE + section
  }

  // What the processor makes of a descriptor.
  function BaseOf(e: nat): nat {
    e / SECTION_SIZE * SECTION_SIZE
  }

  /** The access permission bits AP[2:0], in bits 15 and 11-10. */
  function PermissionsOf(e: nat): nat {
    e / 0x8000 % 2 * 4 + e / 0x400 % 4
  }

  predicate PrivilegedOnly(e: nat) {
    PermissionsOf(e) == 1
  }

  predicate AnyAccess(e: nat) {
    PermissionsOf(e) == 3
  }

  /** What the passes leave in entry i: the later ones win. */
  function SectionOf(i: nat, memStart: nat, memEnd: nat, kernelEnd: nat): nat {
    if i >= 2048 then SECTION_2GB
    else if i >= 1024 then SECTION_1GB
    else if kernelEnd / SECTION_SIZE <= i < memEnd / SECTION_SIZE then SECTION_USER
    else if memStart / SECTION_SIZE <= i < kernelEnd / SECTION_SIZE then SECTION_KERNEL
    else SECTION_DEFAULT
  }

  ghost predicate Written(table: array<nat>, lo: nat, hi: nat, section: nat)
    requires hi <= table.Length
    reads table
  {
    forall i :: lo <= i < hi ==> table[i] == Descriptor(i, section)
  }

  /** One pass. */
  method Fill(table: array<nat>, lo: nat, hi: nat, section: nat)
    requires hi <= table.Length
    modifies table
    ensures Written(table, lo, hi, section)
    ensures forall i :: 0 <= i < table.Length && !(lo <= i < hi) ==> table[i] == old(table[i])
  {
    var i := lo;
    while i < hi
      invariant lo <= i && (lo <= hi ==> i <= hi)
      invariant forall k :: lo <= k < i && k < hi ==> table[k] == Descriptor(k, section)
      invariant forall k :: 0 <= k < table.Length && !(lo <= k < i && k < hi) ==> table[k] == old(table[k])
    {
      table[i] := Descriptor(i, section);
      i := i + 1;
    }
  }

  method SetupPagetable(table: array<nat>, memStart: nat, memEnd: nat, kernelEnd: nat)
    requires table.Length == ENTRIES && memEnd < 0x1_0000_0000 && kernelEnd < 0x1_0000_0000
    modifies table
    ensures forall i :: 0 <= i < ENTRIES ==> table[i] == Descriptor(i, SectionOf(i, memStart, memEnd, kernelEnd))
  {
    Fill(table, 0, ENTRIES, SECTION_DEFAULT);
    Fill(table, memStart / SECTION_SIZE, kernelEnd / SECTION_SIZE, SECTION_KERNEL);
    Fill(table, kernelEnd / SECTION_SIZE, memEnd / SECTION_SIZE, SECTION_USER);
    Fill(table, 0x4000_0000 / SECTION_SIZE, 0x8000_0000 / SECTION_SIZE, SECTION_1GB);
    Fill(table, 0x8000_0000 / SECTION_SIZE, 0xffff_ffff / SECTION_SIZE + 1, SECTION_2GB);
  }

  lemma AddedUnits(a: nat, x: nat, d: nat)
    requires d in {SECTION_SIZE, 0x8000, 0x400, 8, 0x1_0000, 0x4_0000}
    ensures (a * d + x) / d == a + x / d
  {}

  lemma Permission(i: nat, x: nat, y: nat)
    ensures (i * 32 + x) % 2 == x % 2 && (i * 1024 + y) % 4 == y % 4
  {}

  /** A descriptor built for one of the sections in use maps its megabyte to itself and has that section's
      permissions. */
  lemma DescriptorMeans(i: nat, section: nat)
    requires section < SECTION_SIZE
    ensures BaseOf(Descriptor(i, section)) == i * SECTION_SIZE
    ensures PermissionsOf(Descriptor(i, section)) == PermissionsOf(section)
  {
    AddedUnits(i, section, SECTION_SIZE);
    AddedUnits(i * 32, section, 0x8000);
    AddedUnits(i * 1024, section, 0x400);
    Permission(i, section / 0x8000, section / 0x400);
  }

  /** The entry that translates an address, in the table set up at boot for this much memory. */
  function EntryFor(address: nat, memoryTotal: nat): nat {
    var i := address / SECTION_SIZE;
    Descriptor(i, SectionOf(i, 0, memoryTotal, RESERVED_KERNEL))
  }

  lemma IdentityMapped(address: nat, memoryTotal: nat)
    requires address < 0x1_0000_0000
    ensures BaseOf(EntryFor(address, memoryTotal)) + address % SECTION_SIZE == address
  {
    DescriptorMeans(address / SECTION_SIZE, SectionOf(address / SECTION_SIZE, 0, memoryTotal, RESERVED_KERNEL));
  }

  lemma Permissions(address: nat, memoryTotal: nat)
    requires address < MAX_MEMORY && memoryTotal <= MAX_MEMORY
    ensures address < RESERVED_KERNEL && memoryTotal >= RESERVED_KERNEL ==>
              PrivilegedOnly(EntryFor(address, memoryTotal))
    ensures address >= RESERVED_KERNEL ==> AnyAccess(EntryFor(address, memoryTotal))
  {
    DescriptorMeans(address / SECTION_SIZE, SectionOf(address / SECTION_SIZE, 0, memoryTotal, RESERVED_KERNEL));
  }

  /** Every byte of every block the allocator hands out has the access that the block's region is for. */
  lemma BlocksAgree(used: set<int>, size: nat, region: Region, memoryTotal: nat, address: nat)
    requires RESERVED_KERNEL <= memoryTotal <= MAX_MEMORY
    requires Placed(used, size, region, memoryTotal / CHUNK_SIZE).Some?
    requires var first := Placed(used, size, region, memoryTotal / CHUNK_SIZE).value;
             first * CHUNK_SIZE <= address < (first + BlockChunks(size)) * CHUNK_SIZE
    ensures region.KernelRegion? ==> PrivilegedOnly(EntryFor(address, memoryTotal))
    ensures region.UserRegion? ==> AnyAccess(EntryFor(address, memoryTotal))
    ensures BaseOf(EntryFor(address, memoryTotal)) + address % SECTION_SIZE == address
  {
    var first, n := Placed(used, size, region, memoryTotal / CHUNK_SIZE).value, BlockChunks(size);
    assert (first + n) * CHUNK_SIZE <= RegionEnd(region, memoryTotal / CHUNK_SIZE) * CHUNK_SIZE;
    Permissions(address, memoryTotal);
    IdentityMapped(address, memoryTotal);
  }

  lemma Parity(m: nat, y: nat)
    ensures (2 * m + y) % 2 == y % 2
  {}

  /** The attribute bits 3, 16 and 18. */
  lemma BitsKept(i: nat, section: nat)
    ensures Descriptor(i, section) / 8 % 2 == section / 8 % 2
    ensures Descriptor(i, section) / 0x1_0000 % 2 == section / 0x1_0000 % 2
    ensures Descriptor(i, section) / 0x4_0000 % 2 == section / 0x4_0000 % 2
  {
    AddedUnits(i * 0x2_0000, section, 8);
    Parity(i * 0x1_0000, section / 8);
    AddedUnits(i * 16, section, 0x1_0000);
    Parity(i * 8, section / 0x1_0000);
    AddedUnits(i * 4, section, 0x4_0000);
    Parity(i * 2, section / 0x4_0000);
  }

  lemma TypeKept(i: nat, section: nat)
    requires section < SECTION_SIZE
    ensures Descriptor(i, section) % 4 == section % 4
  {}

  /** The attributes of the sections in use: cached for memory, uncached for the rest. */
  lemma SectionBits(i: nat, memoryTotal: nat)
    ensures var s := SectionOf(i, 0, memoryTotal, RESERVED_KERNEL);
            && s < SECTION_SIZE && s % 4 == 2 && s / 0x4_0000 % 2 == 0 && s / 0x1_0000 % 2 == 1
            && (s / 8 % 2 == 1 <==> s == SECTION_KERNEL || s == SECTION_USER)
            && (i >= 1024 ==> PermissionsOf(s) == 1)
  {}

  lemma MemorySections(address: nat, memoryTotal: nat)
    requires memoryTotal <= MAX_MEMORY && memoryTotal % SECTION_SIZE == 0 && memoryTotal >= RESERVED_KERNEL
    ensures var s := SectionOf(address / SECTION_SIZE, 0, memoryTotal, RESERVED_KERNEL);
            s == SECTION_KERNEL || s == SECTION_USER <==> address < memoryTotal
  {}

  /** Every entry is a shared section of one megabyte, by its type bits 10 and the clear bit 18. With memory from
      address 0 on, what is memory is cached and nothing else is; above 1 GB only privileged access is left. */
  lemma SectionAttributes(address: nat, memoryTotal: nat)
    requires address < 0x1_0000_0000 && memoryTotal <= MAX_MEMORY && memoryTotal % SECTION_SIZE == 0
    requires memoryTotal >= RESERVED_KERNEL
    ensures var e := EntryFor(address, memoryTotal);
            && e % 4 == 2 && e / 0x4_0000 % 2 == 0 && e / 0x1_0000 % 2 == 1
            && (e / 8 % 2 == 1 <==> address < memoryTotal)
            && (address >= 0x4000_0000 ==> PrivilegedOnly(e))
  {
    hide Descriptor, SectionOf, PermissionsOf;
    var i := address / SECTION_SIZE;
    var s := SectionOf(i, 0, memoryTotal, RESERVED_KERNEL);
    SectionBits(i, memoryTotal);
    MemorySections(address, memoryTotal);
    TypeKept(i, s);
    BitsKept(i, s);
    DescriptorMeans(i, s);
  }
}
