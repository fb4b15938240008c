/** The page tables loader/Page.c builds, the user-access bit setPageUserAccess of kernel/proc/Process.c turns on and
  * off in them, and the 4-level walk of section 4.5 of Intel SDM Vol. 3A over them. */
module Page {
  import opened Common
  import opened Words

  // addresses and sizes of common/Paging.h and loader/Page.h
  const PML4_BASE_ADDRESS: nat := 0x100000
  const PDPTABLE_BASE_ADDRESS: nat := 0x101000
  const PDTABLE_BASE_ADDRESS: nat := 0x102000
  const PTABLE_BASE_ADDRESS: nat := 0x106000
  const TABLES_END: nat := 0x906000
  const TABLE_COUNT: nat := 512
  const PAGE_TABLE_SIZE: nat := 0x1000
  const MAX_MEMORY_SIZE: nat := 4
  const MAX_CODE_SIZE: nat := 2
  const KERNEL_SIZE: nat := 32

  const FLAGS_P: nat := 1
  const FLAGS_RW: nat := 2
  const FLAGS_US: nat := 4
  const FLAGS_EXB: nat := 0x8000_0000

  /** 64 MB of pages start out present; the rest of the 4 GB do not. */
  const PRESENT_PAGES: nat := 16384
  const ALL_PAGES: nat := 1048576

  datatype PageEntry = PageEntry(lower: nat, upper: nat)

  // ---------------------------------------------------------------- C arithmetic

  /** Bitwise or. */
  function Or(a: nat, b: nat): nat
    decreases a + b
  {
    if a == 0 then b else if b == 0 then a
    else 2 * Or(a / 2, b / 2) + if a % 2 == 1 || b % 2 == 1 then 1 else 0
  }

  predicate PowerOfTwo(m: nat) { m == 1 || (m > 1 && m % 2 == 0 && PowerOfTwo(m / 2)) }

  /** Bits that do not overlap add up. */
  lemma {:induction false} OrDisjoint(a: nat, q: nat, m: nat)
    requires PowerOfTwo(m) && a < m
    ensures Or(a, m * q) == a + m * q
    decreases m
  {
    if a > 0 && q > 0 {
      var h := m / 2;
      assert m * q == 2 * (h * q);
      OrDisjoint(a / 2, q, h);
    }
  }

  lemma Powers()
    ensures PowerOfTwo(4096) && PowerOfTwo(256) && PowerOfTwo(4)
  {
    assert PowerOfTwo(1) && PowerOfTwo(2) && PowerOfTwo(4) && PowerOfTwo(8) && PowerOfTwo(16) && PowerOfTwo(32);
    assert PowerOfTwo(64) && PowerOfTwo(128) && PowerOfTwo(256) && PowerOfTwo(512) && PowerOfTwo(1024) && PowerOfTwo(2048);
  }

  /** Flags go below a page address, the execute-disable bit above the upper address byte. */
  lemma OrFlags(flags: nat, page: nat)
    requires flags < 4096
    ensures Or(flags, page * 0x1000) == flags + page * 0x1000
  {
    Powers();
    OrDisjoint(flags, page, 4096);
    assert 4096 * page == page * 0x1000;
  }

  lemma OrConstants()
    ensures Or(FLAGS_P, FLAGS_RW) == 3 && Or(Or(FLAGS_P, FLAGS_RW), FLAGS_US) == 7
    ensures forall u :: 0 <= u < 256 ==> Or(u, FLAGS_EXB) == u + FLAGS_EXB
  {
    assert Or(1, 2) == 3;
    assert Or(1, 1) == 1;
    assert Or(3, 4) == 7;
    forall u | 0 <= u < 256 ensures Or(u, FLAGS_EXB) == u + FLAGS_EXB {
      Powers();
      OrDisjoint(u, 0x80_0000, 256);
    }
  }

  /** `(address >> 28) & 0xFF` on such an int: the shift is arithmetic, so it rounds down. */
  function Upper(address: nat): nat { Int32(address) / 0x1000_0000 % 256 }

  /** `flags | address`, stored in a DWORD. */
  function Lower(flags: nat, address: nat): nat { Or(flags, address % DWORD) }

  // ---------------------------------------------------------------- the four tables

  /** Physical memory up to the end of the tables, by 8-byte entries: entry `k` is at address 8 * k. */
  ghost predicate Memory(mem: array<PageEntry>) { mem.Length == TABLES_END / 8 }

  const EMPTY: PageEntry := PageEntry(0, 0)

  /** An entry for the table of 4096 bytes at `address`. */
  function TableEntry(address: nat): PageEntry { PageEntry(address + 7, 0) }

  /** The entry of page `i`, user-accessible or not. */
  function PtEntry(i: nat, user: bool): PageEntry {
    PageEntry(
      i * 0x1000 + (if i < PRESENT_PAGES then 3 else 2) + (if user then 4 else 0),
      (if i < 524288 then i / 65536 else i / 65536 + 240) + (if i < MAX_CODE_SIZE * TABLE_COUNT * 512 then 0 else FLAGS_EXB))
  }

  ghost predicate Pml4(m: seq<PageEntry>) {
    && |m| == TABLES_END / 8
    && m[PML4_BASE_ADDRESS / 8] == TableEntry(PDPTABLE_BASE_ADDRESS)
    && forall k :: PML4_BASE_ADDRESS / 8 < k < PDPTABLE_BASE_ADDRESS / 8 ==> m[k] == EMPTY
  }

  ghost predicate Pdpt(m: seq<PageEntry>) {
    && |m| == TABLES_END / 8
    && forall k :: PDPTABLE_BASE_ADDRESS / 8 <= k < PDTABLE_BASE_ADDRESS / 8 ==>
         var i := k - PDPTABLE_BASE_ADDRESS / 8;
         m[k] == if i < MAX_MEMORY_SIZE then TableEntry(PDTABLE_BASE_ADDRESS + i * PAGE_TABLE_SIZE) else EMPTY
  }

  ghost predicate Pd(m: seq<PageEntry>) {
    && |m| == TABLES_END / 8
    && forall k :: PDTABLE_BASE_ADDRESS / 8 <= k < PTABLE_BASE_ADDRESS / 8 ==>
         m[k] == TableEntry(PTABLE_BASE_ADDRESS + (k - PDTABLE_BASE_ADDRESS / 8) * PAGE_TABLE_SIZE)
  }

  /** Every page entry is as first built, but for the user bit of the pages in `users`. */
  ghost predicate Pt(m: seq<PageEntry>, users: set<nat>) {
    && |m| == TABLES_END / 8
    && forall k :: PTABLE_BASE_ADDRESS / 8 <= k < TABLES_END / 8 ==>
         m[k] == PtEntry(k - PTABLE_BASE_ADDRESS / 8, k - PTABLE_BASE_ADDRESS / 8 in users)
  }

  ghost predicate Tables(m: seq<PageEntry>, users: set<nat>) { Pml4(m) && Pdpt(m) && Pd(m) && Pt(m, users) }

  /** The part of the tables that outlives booting: the kernel image is copied over page entries from 2 GB up, and the
    * present bits of pages from 64 MB up change, but the entries of the first 64 MB stay but for their user bits. */
  ghost predicate LowTables(m: seq<PageEntry>, users: set<nat>) {
    && Pml4(m) && Pdpt(m) && Pd(m)
    && forall k :: PTABLE_BASE_ADDRESS / 8 <= k < PTABLE_BASE_ADDRESS / 8 + PRESENT_PAGES ==>
         m[k] == PtEntry(k - PTABLE_BASE_ADDRESS / 8, k - PTABLE_BASE_ADDRESS / 8 in users)
  }

  lemma LowOfTables(m: seq<PageEntry>, users: set<nat>)
    requires Tables(m, users)
    ensures LowTables(m, users)
  {
    hide PtEntry, TableEntry;
  }

  /** Nothing below slot `lo` or from slot `hi` up differs. */
  ghost predicate Outside(m: seq<PageEntry>, w: seq<PageEntry>, lo: nat, hi: nat) {
    |m| == |w| && forall k :: 0 <= k < |m| && !(lo <= k < hi) ==> w[k] == m[k]
  }

  /** What the loops compute for an entry is the entry described above. */
  lemma TableEntryBits(page: nat)
    requires page < 65536
    ensures PageEntry(Lower(Or(Or(FLAGS_P, FLAGS_RW), FLAGS_US), page * 0x1000), Upper(page * 0x1000)) == TableEntry(page * 0x1000)
  {
    OrConstants();
    OrFlags(7, page);
  }

  /** Shifted by 28 where 32 was meant, address bits 28 to 31 also end up in the upper half, sign-extended. */
  lemma UpperBits(i: nat)
    requires i < ALL_PAGES
    ensures Upper(i * 0x1000) == if i < 524288 then i / 65536 else i / 65536 + 240
    ensures Upper(i * 0x1000) < 256
  {
    var q, r := i / 65536, i % 65536 * 0x1000;
    if i < 524288 {
      DivMod(i * 0x1000, 0x1000_0000, q, r);
    } else {
      DivMod(i * 0x1000 - DWORD, 0x1000_0000, q - 16, r);
    }
  }

  lemma PtEntryBits(i: nat)
    requires i < ALL_PAGES
    ensures i < PRESENT_PAGES ==> PageEntry(Lower(Or(FLAGS_P, FLAGS_RW), i * 0x1000), Upper(i * 0x1000)) == PtEntry(i, false)
    ensures PRESENT_PAGES <= i < MAX_CODE_SIZE * TABLE_COUNT * 512 ==>
      PageEntry(Lower(FLAGS_RW, i * 0x1000), Upper(i * 0x1000)) == PtEntry(i, false)
    ensures MAX_CODE_SIZE * TABLE_COUNT * 512 <= i ==>
      PageEntry(Lower(FLAGS_RW, i * 0x1000), Or(Upper(i * 0x1000), FLAGS_EXB)) == PtEntry(i, false)
  {
    hide Or, Upper, PowerOfTwo;
    OrConstants();
    OrFlags(3, i);
    OrFlags(2, i);
    UpperBits(i);
  }

  method InitializePML4Table(mem: array<PageEntry>)
    requires Memory(mem)
    modifies mem
    ensures Pml4(mem[..]) && Outside(old(mem[..]), mem[..], PML4_BASE_ADDRESS / 8, PDPTABLE_BASE_ADDRESS / 8)
  {
    var pml4Entry := PML4_BASE_ADDRESS / 8;
    TableEntryBits(PDPTABLE_BASE_ADDRESS / 0x1000);
    mem[pml4Entry] := mem[pml4Entry].(lower := Lower(Or(Or(FLAGS_P, FLAGS_RW), FLAGS_US), PDPTABLE_BASE_ADDRESS));
    mem[pml4Entry] := mem[pml4Entry].(upper := Upper(PDPTABLE_BASE_ADDRESS));
    for i := 1 to TABLE_COUNT
      invariant mem[pml4Entry] == TableEntry(PDPTABLE_BASE_ADDRESS)
      invariant forall k :: pml4Entry < k < pml4Entry + i ==> mem[k] == EMPTY
      invariant forall k :: 0 <= k < mem.Length && !(pml4Entry <= k < pml4Entry + i) ==> mem[k] == old(mem[k])
    {
      mem[pml4Entry + i] := mem[pml4Entry + i].(lower := 0);
      mem[pml4Entry + i] := mem[pml4Entry + i].(upper := 0);
    }
  }

  method InitializePageDirectoryPointerTable(mem: array<PageEntry>)
    requires Memory(mem)
    modifies mem
    ensures Pdpt(mem[..]) && Outside(old(mem[..]), mem[..], PDPTABLE_BASE_ADDRESS / 8, PDTABLE_BASE_ADDRESS / 8)
  {
    var pdpEntry := PDPTABLE_BASE_ADDRESS / 8;
    for i := 0 to MAX_MEMORY_SIZE
      invariant forall k :: pdpEntry <= k < pdpEntry + i ==> mem[k] == TableEntry(PDTABLE_BASE_ADDRESS + (k - pdpEntry) * PAGE_TABLE_SIZE)
      invariant forall k :: 0 <= k < mem.Length && !(pdpEntry <= k < pdpEntry + i) ==> mem[k] == old(mem[k])
    {
      var pageTableAddress := PDTABLE_BASE_ADDRESS + i * PAGE_TABLE_SIZE;
      TableEntryBits(PDTABLE_BASE_ADDRESS / 0x1000 + i);
      mem[pdpEntry + i] := mem[pdpEntry + i].(lower := Lower(Or(Or(FLAGS_P, FLAGS_RW), FLAGS_US), pageTableAddress));
      mem[pdpEntry + i] := mem[pdpEntry + i].(upper := Upper(pageTableAddress));
    }
    for i := MAX_MEMORY_SIZE to TABLE_COUNT
      invariant forall k :: pdpEntry <= k < pdpEntry + i ==>
        mem[k] == if k - pdpEntry < MAX_MEMORY_SIZE then TableEntry(PDTABLE_BASE_ADDRESS + (k - pdpEntry) * PAGE_TABLE_SIZE) else EMPTY
      invariant forall k :: 0 <= k < mem.Length && !(pdpEntry <= k < pdpEntry + i) ==> mem[k] == old(mem[k])
    {
      mem[pdpEntry + i] := mem[pdpEntry + i].(lower := 0);
      mem[pdpEntry + i] := mem[pdpEntry + i].(upper := 0);
    }
  }

  method InitializePageDirectoryTable(mem: array<PageEntry>)
    requires Memory(mem)
    modifies mem
    ensures Pd(mem[..]) && Outside(old(mem[..]), mem[..], PDTABLE_BASE_ADDRESS / 8, PTABLE_BASE_ADDRESS / 8)
  {
    var pdEntry := PDTABLE_BASE_ADDRESS / 8;
    for i := 0 to MAX_MEMORY_SIZE * TABLE_COUNT
      invariant forall k :: pdEntry <= k < pdEntry + i ==> mem[k] == TableEntry(PTABLE_BASE_ADDRESS + (k - pdEntry) * PAGE_TABLE_SIZE)
      invariant forall k :: 0 <= k < mem.Length && !(pdEntry <= k < pdEntry + i) ==> mem[k] == old(mem[k])
    {
      var pageTableAddress := PTABLE_BASE_ADDRESS + i * PAGE_TABLE_SIZE;
      TableEntryBits(PTABLE_BASE_ADDRESS / 0x1000 + i);
      mem[pdEntry + i] := mem[pdEntry + i].(lower := Lower(Or(Or(FLAGS_P, FLAGS_RW), FLAGS_US), pageTableAddress));
      mem[pdEntry + i] := mem[pdEntry + i].(upper := Upper(pageTableAddress));
    }
  }

  method InitializePageTable(mem: array<PageEntry>)
    requires Memory(mem)
    modifies mem
    ensures Pt(mem[..], {}) && Outside(old(mem[..]), mem[..], PTABLE_BASE_ADDRESS / 8, TABLES_END / 8)
  {
    hide Or, Upper, PtEntry, Lower;
    var ptEntry := PTABLE_BASE_ADDRESS / 8;
    for i := 0 to KERNEL_SIZE * 512
      invariant forall k :: ptEntry <= k < ptEntry + i ==> mem[k] == PtEntry(k - ptEntry, false)
      invariant forall k :: 0 <= k < ptEntry ==> mem[k] == old(mem[k])
    {
      var physicalAddress := i * 0x1000;
      PtEntryBits(i);
      mem[ptEntry + i] := mem[ptEntry + i].(lower := Lower(Or(FLAGS_P, FLAGS_RW), physicalAddress));
      mem[ptEntry + i] := mem[ptEntry + i].(upper := Upper(physicalAddress));
    }
    for i := KERNEL_SIZE * 512 to MAX_MEMORY_SIZE * TABLE_COUNT * 512
      invariant forall k :: ptEntry <= k < ptEntry + i && k < ptEntry + MAX_CODE_SIZE * TABLE_COUNT * 512 ==>
        mem[k] == PtEntry(k - ptEntry, false)
      invariant forall k :: 0 <= k < ptEntry ==> mem[k] == old(mem[k])
    {
      var physicalAddress := i * 0x1000;
      PtEntryBits(i);
      mem[ptEntry + i] := mem[ptEntry + i].(lower := Lower(FLAGS_RW, physicalAddress));
      mem[ptEntry + i] := mem[ptEntry + i].(upper := Upper(physicalAddress));
    }
    for i := MAX_CODE_SIZE * TABLE_COUNT * 512 to MAX_MEMORY_SIZE * TABLE_COUNT * 512
      invariant forall k :: ptEntry <= k < ptEntry + i ==> mem[k] == PtEntry(k - ptEntry, false)
      invariant forall k :: 0 <= k < ptEntry ==> mem[k] == old(mem[k])
    {
      var physicalAddress := i * 0x1000;
      PtEntryBits(i);
      mem[ptEntry + i] := mem[ptEntry + i].(lower := Lower(FLAGS_RW, physicalAddress));
      mem[ptEntry + i] := mem[ptEntry + i].(upper := Or(Upper(physicalAddress), FLAGS_EXB));
    }
  }

  /** The four tables, none of which overwrites another. */
  method InitializePaging(mem: array<PageEntry>)
    requires Memory(mem)
    modifies mem
    ensures Tables(mem[..], {}) && Outside(old(mem[..]), mem[..], PML4_BASE_ADDRESS / 8, TABLES_END / 8)
  {
    hide TableEntry, PtEntry;
    InitializePML4Table(mem);
    InitializePageDirectoryPointerTable(mem);
    InitializePageDirectoryTable(mem);
    InitializePageTable(mem);
  }

  // ---------------------------------------------------------------- setPageUserAccess

  /** PAGE_LOWER4B_FLAGS_US, bit 2 of the lower half of an entry, with `|= US` and `&= ~US`. */
  predicate HasUs(entry: nat) { entry / 4 % 2 == 1 }

  function OrUs(entry: nat): (r: nat)
    ensures HasUs(r) && r % 4 == entry % 4 && r / 8 == entry / 8
  {
    assert entry == 4 * (entry / 4) + entry % 4;
    assert (entry + 4) / 4 == entry / 4 + 1 && (entry + 4) % 4 == entry % 4;
    assert entry / 8 == entry / 4 / 2 && (entry + 4) / 8 == (entry / 4 + 1) / 2;
    if HasUs(entry) then entry else entry + 4
  }

  function AndNotUs(entry: nat): (r: nat)
    ensures !HasUs(r) && r % 4 == entry % 4 && r / 8 == entry / 8
  {
    if HasUs(entry) then ClearUs(entry); entry - 4 else entry
  }

  lemma ClearUs(n: nat)
    requires HasUs(n)
    ensures n >= 4 && !HasUs(n - 4) && (n - 4) % 4 == n % 4 && (n - 4) / 8 == n / 8
  {
    var q, r := n / 8, n % 8;
    DivMod(n, 4, 2 * q + r / 4, r % 4);
    DivMod(n / 4, 2, q, r / 4);
    DivMod(n - 4, 4, 2 * q, r - 4);
    DivMod(n - 4, 8, q, r - 4);
    DivMod((n - 4) / 4, 2, q, 0);
  }

  /** The bits below a page address. */
  lemma LowBits(i: nat, flags: nat)
    requires flags < 128
    ensures var n := i * 0x1000 + flags; n / 0x1000 == i && n % 2 == flags % 2 && n / 2 % 2 == flags / 2 % 2
    ensures var n := i * 0x1000 + flags; n / 4 % 2 == flags / 4 % 2 && n / 128 % 2 == 0
  {
    var n := i * 0x1000 + flags;
    DivMod(n, 0x1000, i, flags);
    DivMod(n, 2, i * 2048 + flags / 2, flags % 2);
    DivMod(n / 2, 2, i * 1024 + flags / 2 / 2, flags / 2 % 2);
    DivMod(n, 4, i * 1024 + flags / 4, flags % 4);
    DivMod(n / 4, 2, i * 512 + flags / 4 / 2, flags / 4 % 2);
    DivMod(n, 128, i * 32, flags);
    DivMod(n / 128, 2, i * 16, 0);
  }

  function Flags(i: nat, user: bool): nat { (if i < PRESENT_PAGES then 3 else 2) + (if user then 4 else 0) }

  lemma UserBit(i: nat, user: bool)
    requires i < ALL_PAGES
    ensures PtEntry(i, user).(lower := OrUs(PtEntry(i, user).lower)) == PtEntry(i, true)
    ensures PtEntry(i, user).(lower := AndNotUs(PtEntry(i, user).lower)) == PtEntry(i, false)
  {
    LowBits(i, Flags(i, user));
    assert PtEntry(i, user).lower == i * 0x1000 + Flags(i, user);
  }

  ghost function Pages(lo: nat, hi: nat): (s: set<nat>)
    ensures forall k :: k in s <==> lo <= k < hi
    decreases hi
  {
    if lo >= hi then {} else Pages(lo, hi - 1) + {hi - 1}
  }

  /** An entry with the user bit set or cleared, all other bits kept. */
  function Changed(e: PageEntry, allow: bool): PageEntry { e.(lower := if allow then OrUs(e.lower) else AndNotUs(e.lower)) }

  /** `w` is `m` with the user bits of pages `lo` up to `hi` set or cleared. */
  ghost predicate WindowSet(m: seq<PageEntry>, w: seq<PageEntry>, lo: nat, hi: nat, allow: bool) {
    && |w| == |m| == TABLES_END / 8
    && forall k :: 0 <= k < |m| ==>
         w[k] == if PTABLE_BASE_ADDRESS / 8 + lo <= k < PTABLE_BASE_ADDRESS / 8 + hi then Changed(m[k], allow) else m[k]
  }

  method SetPageUserAccess(mem: array<PageEntry>, start: nat, end: nat, allow: bool)
    requires Memory(mem)
    requires start % 0x1000 == 0 && end % 0x1000 == 0 && end <= ALL_PAGES * 0x1000
    modifies mem
    ensures WindowSet(old(mem[..]), mem[..], start / 0x1000, end / 0x1000, allow)
  {
    hide OrUs, AndNotUs;
    var page := PTABLE_BASE_ADDRESS / 8;
    ghost var lo := page + start / 0x1000;
    var addr := start;
    while addr < end
      invariant addr % 0x1000 == 0 && start <= addr && (addr == start || addr <= end)
      invariant forall k :: lo <= k < page + addr / 0x1000 ==> mem[k] == Changed(old(mem[k]), allow)
      invariant forall k :: 0 <= k < mem.Length && !(lo <= k < page + addr / 0x1000) ==> mem[k] == old(mem[k])
    {
      var i := addr / 0x1000;
      if allow {
        mem[page + i] := mem[page + i].(lower := OrUs(mem[page + i].lower));
      } else {
        mem[page + i] := mem[page + i].(lower := AndNotUs(mem[page + i].lower));
      }
      addr := addr + 0x1000;
    }
  }

  /** What that does to the tables: the pages of the window become user-accessible, or cease to be. */
  lemma WindowTables(m: seq<PageEntry>, w: seq<PageEntry>, lo: nat, hi: nat, allow: bool, users: set<nat>)
    requires WindowSet(m, w, lo, hi, allow) && hi <= ALL_PAGES
    ensures var users' := if allow then users + Pages(lo, hi) else users - Pages(lo, hi);
            (Tables(m, users) ==> Tables(w, users')) && (LowTables(m, users) ==> LowTables(w, users'))
  {
    hide PtEntry, TableEntry, Changed;
    forall i: nat | lo <= i < hi ensures Changed(PtEntry(i, i in users), allow) == PtEntry(i, allow) {
      ChangedEntry(i, i in users, allow);
    }
  }

  lemma ChangedEntry(i: nat, user: bool, allow: bool)
    requires i < ALL_PAGES
    ensures Changed(PtEntry(i, user), allow) == PtEntry(i, allow)
  {
    UserBit(i, user);
  }

  // ---------------------------------------------------------------- the walk of section 4.5

  predicate Present(e: PageEntry) { e.lower % 2 == 1 }

  predicate Writable(e: PageEntry) { e.lower / 2 % 2 == 1 }

  predicate UserAccess(e: PageEntry) { HasUs(e.lower) }

  predicate PageSize(e: PageEntry) { e.lower / 128 % 2 == 1 }

  predicate NoExecute(e: PageEntry) { e.upper / FLAGS_EXB % 2 == 1 }

  /** Bits 51 to 12. */
  function Frame(e: PageEntry): nat { e.lower / 0x1000 * 0x1000 + e.upper % 0x10_0000 * DWORD }

  /** The entry at an address; memory behind the tables is not modelled, and the walk never leads there. */
  function EntryAt(m: seq<PageEntry>, address: nat): PageEntry {
    if address / 8 < |m| then m[address / 8] else EMPTY
  }

  datatype Mapping = Mapping(physical: nat, writable: bool, user: bool, noExecute: bool)

  /** The rights of a translation: writable and user only if every entry allows it, executable unless one forbids it. */
  function Leaf(path: seq<PageEntry>, physical: nat): Mapping {
    Mapping(physical,
      forall k :: 0 <= k < |path| ==> Writable(path[k]),
      forall k :: 0 <= k < |path| ==> UserAccess(path[k]),
      exists k :: 0 <= k < |path| && NoExecute(path[k]))
  }

  function Walk(m: seq<PageEntry>, va: nat): Option<Mapping> {
    var e4 := EntryAt(m, PML4_BASE_ADDRESS + 8 * (va / 0x80_0000_0000 % 512));
    if !Present(e4) then None
    else
      var e3 := EntryAt(m, Frame(e4) + 8 * (va / 0x4000_0000 % 512));
      if !Present(e3) then None
      else if PageSize(e3) then Some(Leaf([e4, e3], Frame(e3) / 0x4000_0000 * 0x4000_0000 + va % 0x4000_0000))
      else
        var e2 := EntryAt(m, Frame(e3) + 8 * (va / 0x20_0000 % 512));
        if !Present(e2) then None
        else if PageSize(e2) then Some(Leaf([e4, e3, e2], Frame(e2) / 0x20_0000 * 0x20_0000 + va % 0x20_0000))
        else
          var e1 := EntryAt(m, Frame(e2) + 8 * (va / 0x1000 % 512));
          if !Present(e1) then None else Some(Leaf([e4, e3, e2, e1], Frame(e1) + va % 0x1000))
  }

  lemma TableEntryMeans(address: nat)
    requires address % 0x1000 == 0
    ensures var e := TableEntry(address);
            Present(e) && Writable(e) && UserAccess(e) && !PageSize(e) && !NoExecute(e) && Frame(e) == address
  {
    LowBits(address / 0x1000, 7);
    assert address == address / 0x1000 * 0x1000;
  }

  lemma PtEntryMeans(i: nat, user: bool)
    requires i < ALL_PAGES
    ensures var e := PtEntry(i, user);
            (Present(e) <==> i < PRESENT_PAGES) && Writable(e) && (UserAccess(e) <==> user)
    ensures NoExecute(PtEntry(i, user)) <==> i >= MAX_CODE_SIZE * TABLE_COUNT * 512
    ensures PtEntry(i, user).lower / 0x1000 == i
  {
    LowBits(i, Flags(i, user));
    assert PtEntry(i, user).lower == i * 0x1000 + Flags(i, user);
  }

  lemma LeafMeans(e4: PageEntry, e3: PageEntry, e2: PageEntry, e1: PageEntry, physical: nat)
    requires Writable(e4) && Writable(e3) && Writable(e2)
    requires UserAccess(e4) && UserAccess(e3) && UserAccess(e2)
    requires !NoExecute(e4) && !NoExecute(e3) && !NoExecute(e2)
    ensures Leaf([e4, e3, e2, e1], physical) == Mapping(physical, Writable(e1), UserAccess(e1), NoExecute(e1))
  {
    hide Writable, UserAccess, NoExecute;
    var path := [e4, e3, e2, e1];
    assert path[0] == e4 && path[1] == e3 && path[2] == e2 && path[3] == e1;
  }

  /** The address in a page entry is the page's own exactly below 256 MB: above, bits 28 to 31 of it are there twice. */
  lemma FrameIsItself(i: nat, user: bool)
    requires i < ALL_PAGES
    ensures Frame(PtEntry(i, user)) == i * 0x1000 <==> i * 0x1000 < 0x1000_0000
  {
    hide Flags, Present, Writable, UserAccess, NoExecute, PtEntry;
    PtEntryMeans(i, user);
    UpperAddress(i, user);
  }

  lemma UpperAddress(i: nat, user: bool)
    requires i < ALL_PAGES
    ensures PtEntry(i, user).upper % 0x10_0000 == if i < 524288 then i / 65536 else i / 65536 + 240
  {
    var u := if i < 524288 then i / 65536 else i / 65536 + 240;
    DivMod(PtEntry(i, user).upper, 0x10_0000, if i < 524288 then 0 else 2048, u);
  }

  /** Every 48-bit address below 64 MB translates to itself, writable and executable, for user mode exactly in the
    * pages of `users`; no other 48-bit address translates. */
  lemma AddressMap(m: seq<PageEntry>, users: set<nat>, va: nat)
    requires Tables(m, users) && va < 0x1_0000_0000_0000
    ensures Walk(m, va) == if va < 0x400_0000 then Some(Mapping(va, true, va / 0x1000 in users, false)) else None
  {
    hide PtEntry, Present, Writable, UserAccess, NoExecute, Frame, Walk, Tables, LowTables;
    if va < 0x400_0000 {
      LowOfTables(m, users);
      LowMap(m, users, va);
    } else if va < 0x1_0000_0000 {
      HighEntry(m, users, va);
    } else {
      WalkAbove4G(m, users, va);
    }
  }

  /** The first half holds while the kernel runs, whatever has become of the other entries. */
  lemma LowMap(m: seq<PageEntry>, users: set<nat>, va: nat)
    requires LowTables(m, users) && va < 0x400_0000
    ensures Walk(m, va) == Some(Mapping(va, true, va / 0x1000 in users, false))
  {
    hide PtEntry, Present, Writable, UserAccess, NoExecute, Frame, Walk, Pml4, Pdpt, Pd;
    var i := va / 0x1000;
    PtEntryMeans(i, i in users);
    FrameIsItself(i, i in users);
    WalkBelow4G(m, va);
  }

  lemma HighEntry(m: seq<PageEntry>, users: set<nat>, va: nat)
    requires Tables(m, users) && 0x400_0000 <= va < 0x1_0000_0000
    ensures Walk(m, va) == None
  {
    hide PtEntry, Present, Writable, UserAccess, NoExecute, Frame, Walk, Pml4, Pdpt, Pd;
    var i := va / 0x1000;
    PtEntryMeans(i, i in users);
    WalkBelow4G(m, va);
  }

  lemma Path(m: seq<PageEntry>, b: nat, c: nat, t: nat)
    requires Pml4(m) && Pdpt(m) && Pd(m) && b < MAX_MEMORY_SIZE && c < 512 && t < 512
    ensures var d, i := 512 * b + c, 512 * (512 * b + c) + t;
            && EntryAt(m, PML4_BASE_ADDRESS) == TableEntry(PDPTABLE_BASE_ADDRESS)
            && EntryAt(m, PDPTABLE_BASE_ADDRESS + 8 * b) == TableEntry(PDTABLE_BASE_ADDRESS + b * PAGE_TABLE_SIZE)
            && EntryAt(m, PDTABLE_BASE_ADDRESS + b * PAGE_TABLE_SIZE + 8 * c) == TableEntry(PTABLE_BASE_ADDRESS + d * PAGE_TABLE_SIZE)
            && EntryAt(m, PTABLE_BASE_ADDRESS + d * PAGE_TABLE_SIZE + 8 * t) == m[PTABLE_BASE_ADDRESS / 8 + i]
  {
    hide TableEntry;
    var d, i := 512 * b + c, 512 * (512 * b + c) + t;
    assert (PDTABLE_BASE_ADDRESS + b * PAGE_TABLE_SIZE + 8 * c) / 8 == PDTABLE_BASE_ADDRESS / 8 + d;
    assert (PTABLE_BASE_ADDRESS + d * PAGE_TABLE_SIZE + 8 * t) / 8 == PTABLE_BASE_ADDRESS / 8 + i;
  }

  /** Nothing translates from 4 GB up. */
  lemma WalkAbove4G(m: seq<PageEntry>, users: set<nat>, va: nat)
    requires Tables(m, users) && 0x1_0000_0000 <= va < 0x1_0000_0000_0000
    ensures Walk(m, va) == None
  {
    hide TableEntry, PtEntry, Present, Writable, UserAccess, PageSize, NoExecute, Frame, Leaf;
    EmptyMeans();
    TableEntryMeans(PDPTABLE_BASE_ADDRESS);
    var a, b := va / 0x80_0000_0000, va / 0x4000_0000 % 512;
    if a > 0 {
      assert a < 512 && EntryAt(m, PML4_BASE_ADDRESS + 8 * a) == EMPTY;
    } else {
      assert b >= MAX_MEMORY_SIZE && EntryAt(m, PDPTABLE_BASE_ADDRESS + 8 * b) == EMPTY;
    }
  }

  /** Below 4 GB a walk ends at the entry of the address's page. */
  lemma WalkBelow4G(m: seq<PageEntry>, va: nat)
    requires Pml4(m) && Pdpt(m) && Pd(m) && va < 0x1_0000_0000
    ensures var e1 := m[PTABLE_BASE_ADDRESS / 8 + va / 0x1000];
            Walk(m, va) == if Present(e1) then Some(Mapping(Frame(e1) + va % 0x1000, Writable(e1), UserAccess(e1), NoExecute(e1))) else None
  {
    hide Pml4, Pdpt, Pd, Walk;
    PageOf(va);
    WalkPath(m, va, va / 0x4000_0000 % 512, va / 0x20_0000 % 512, va / 0x1000 % 512);
  }

  lemma PageOf(va: nat)
    requires va < 0x1_0000_0000
    ensures va / 0x80_0000_0000 == 0 && va / 0x4000_0000 % 512 < MAX_MEMORY_SIZE
    ensures va / 0x1000 == 512 * (512 * (va / 0x4000_0000 % 512) + va / 0x20_0000 % 512) + va / 0x1000 % 512 < ALL_PAGES
  {
  }

  lemma WalkPath(m: seq<PageEntry>, va: nat, b: nat, c: nat, t: nat)
    requires Pml4(m) && Pdpt(m) && Pd(m) && b < MAX_MEMORY_SIZE && c < 512 && t < 512
    requires va / 0x80_0000_0000 == 0 && b == va / 0x4000_0000 % 512 && c == va / 0x20_0000 % 512 && t == va / 0x1000 % 512
    ensures |m| == TABLES_END / 8
    ensures var e1 := m[PTABLE_BASE_ADDRESS / 8 + 512 * (512 * b + c) + t];
            Walk(m, va) == if Present(e1) then Some(Mapping(Frame(e1) + va % 0x1000, Writable(e1), UserAccess(e1), NoExecute(e1))) else None
  {
    hide TableEntry, Present, Writable, UserAccess, PageSize, NoExecute, Frame, Leaf, EntryAt, Pml4, Pdpt, Pd;
    TableSize(m);
    var d, i := 512 * b + c, 512 * (512 * b + c) + t;
    var e4, e3 := TableEntry(PDPTABLE_BASE_ADDRESS), TableEntry(PDTABLE_BASE_ADDRESS + b * PAGE_TABLE_SIZE);
    var e2, e1 := TableEntry(PTABLE_BASE_ADDRESS + d * PAGE_TABLE_SIZE), m[PTABLE_BASE_ADDRESS / 8 + i];
    TableEntryMeans(PDPTABLE_BASE_ADDRESS);
    TableEntryMeans(PDTABLE_BASE_ADDRESS + b * PAGE_TABLE_SIZE);
    TableEntryMeans(PTABLE_BASE_ADDRESS + d * PAGE_TABLE_SIZE);
    Path(m, b, c, t);
    LeafMeans(e4, e3, e2, e1, Frame(e1) + va % 0x1000);
  }

  lemma TableSize(m: seq<PageEntry>)
    requires Pml4(m)
    ensures |m| == TABLES_END / 8
  {
  }

  lemma EmptyMeans()
    ensures !Present(EMPTY)
  {
  }
}
