/** The page tables that map a measured launch environment, built by storing through two
    moving pointers into a zeroed region.

    The region is an array of 64-bit entries; a pointer is an index into it. Page 0 is the
    page directory pointer table, page 1 the page directory, and page tables follow.
*/
module MlePagetable {
  const PAGE_SIZE: nat := 4096
  const ENTRIES: nat := 512
  const WORD: nat := 0x1_0000_0000

  // The region set aside: 20 pages, 18 of them page tables.
  const MLEPT_PAGES: nat := 20
  const MLEPT_BYTES_COVERED: nat := (MLEPT_PAGES - 2) * ENTRIES * PAGE_SIZE

  datatype Option<T> = None | Some(value: T)

  // An entry: the page address with the present bit.
  function MakeEntry(addr: nat): nat {
    addr / PAGE_SIZE * PAGE_SIZE + 1
  }

  // How many pages are mapped; the loop maps one before it looks at the size.
  function PagesFor(size: nat): nat {
    if size == 0 then 1 else (size + PAGE_SIZE - 1) / PAGE_SIZE
  }

  function TablesFor(pages: nat): nat {
    (pages + ENTRIES - 1) / ENTRIES
  }

  // What page p of the image should be mapped to; addresses are 32 bits wide.
  function PageAddress(start: nat, p: nat): nat {
    (start + PAGE_SIZE * p) % WORD
  }

  // The region after pages pages and tables page tables have been entered.
  ghost function EntryAt(base: nat, start: nat, pages: nat, tables: nat, i: nat): nat {
    if i == 0 then MakeEntry(base + PAGE_SIZE)
    else if ENTRIES <= i < ENTRIES + tables then MakeEntry(base + PAGE_SIZE * (2 + i - ENTRIES))
    else if 2 * ENTRIES <= i < 2 * ENTRIES + pages then MakeEntry(PageAddress(start, i - 2 * ENTRIES))
    else 0
  }

  // The walk the hardware does for page p.
  function Follow(mem: seq<nat>, base: nat, entry: nat, index: nat): Option<nat>
    requires index < ENTRIES
  {
    if entry % 2 == 0 then None
    else
      var page := entry - 1;
      if page < base || (page - base) / 8 + index >= |mem| then None else Some(mem[(page - base) / 8 + index])
  }

  function Walk(mem: seq<nat>, base: nat, p: nat): Option<nat>
    requires |mem| > 0 && p < ENTRIES * ENTRIES
  {
    match Follow(mem, base, mem[0], p / ENTRIES)
    case None => None
    case Some(pde) =>
      match Follow(mem, base, pde, p % ENTRIES)
      case None => None
      case Some(pte) => if pte % 2 == 0 then None else Some(pte - 1)
  }

  predicate Aligned(addr: nat) {
    addr % PAGE_SIZE == 0
  }

  // The do-while loop of both page table builders.
  method Build(mem: array<nat>, base: nat, start: nat, size: nat)
    requires Aligned(base) && mem.Length % ENTRIES == 0 && mem.Length > 2 * ENTRIES
    requires size <= (mem.Length / ENTRIES - 2) * ENTRIES * PAGE_SIZE && mem.Length <= (2 + ENTRIES) * ENTRIES
    modifies mem
    ensures forall i :: 0 <= i < mem.Length ==>
              mem[i] == EntryAt(base, start, PagesFor(size), TablesFor(PagesFor(size)), i)
  {
    hide MakeEntry;
    var z := 0;
    while z < mem.Length
      invariant z <= mem.Length && forall i :: 0 <= i < z ==> mem[i] == 0
    {
      mem[z] := 0;
      z := z + 1;
    }
    mem[0] := MakeEntry(base + PAGE_SIZE);
    mem[ENTRIES] := MakeEntry(base + PAGE_SIZE * 2);
    var pte, pde, off, count := 2 * ENTRIES, ENTRIES, 0, 0;
    ghost var tables := 1;
    while true
      invariant count * PAGE_SIZE == off && pte == 2 * ENTRIES + count && pde == ENTRIES + tables - 1
      invariant tables == count / ENTRIES + 1 && 2 * ENTRIES + count < mem.Length
      invariant off < size || off == 0
      invariant forall i :: 0 <= i < mem.Length ==> mem[i] == EntryAt(base, start, count, tables, i)
      decreases mem.Length - count
    {
      mem[pte] := MakeEntry((start + off) % WORD);
      pte, off, count := pte + 1, off + PAGE_SIZE, count + 1;
      if count % ENTRIES == 0 {
        if off >= size {
          break;
        }
        pde := pde + 1;
        mem[pde] := MakeEntry(base + 8 * pte);
        tables := tables + 1;
      }
      if off >= size {
        break;
      }
    }
  }

  lemma AlignedEntry(addr: nat)
    requires Aligned(addr)
    ensures MakeEntry(addr) == addr + 1 && MakeEntry(addr) % 2 == 1
  {
    var q := addr / PAGE_SIZE;
    assert addr == PAGE_SIZE * q == 2 * (2048 * q);
    Odd(2048 * q);
  }

  lemma Odd(x: nat)
    ensures (2 * x + 1) % 2 == 1
  {
  }

  lemma AlignedSteps(base: nat, start: nat, k: nat)
    requires Aligned(base) && Aligned(start)
    ensures Aligned(base + PAGE_SIZE * k) && Aligned(PageAddress(start, k))
  {
    var x := start + PAGE_SIZE * k;
    assert Aligned(x);
    assert x % WORD == x - WORD * (x / WORD);
  }

  // Walking the finished tables maps page p exactly when it is one of the pages entered.
  lemma WalkMaps(mem: seq<nat>, base: nat, start: nat, pages: nat, p: nat)
    requires Aligned(base) && Aligned(start) && |mem| % ENTRIES == 0
    requires 0 < pages <= (|mem| / ENTRIES - 2) * ENTRIES && |mem| <= (2 + ENTRIES) * ENTRIES
    requires forall i :: 0 <= i < |mem| ==> mem[i] == EntryAt(base, start, pages, TablesFor(pages), i)
    requires p < ENTRIES * ENTRIES
    ensures Walk(mem, base, p) == if p < pages then Some(PageAddress(start, p)) else None
  {
    hide MakeEntry, PageAddress, Aligned;
    var t := p / ENTRIES;
    Directory(base, start, 1);
    assert Follow(mem, base, mem[0], t) == Some(mem[ENTRIES + t]);
    if t < TablesFor(pages) {
      Directory(base, start, 2 + t);
      var e := 2 * ENTRIES + ENTRIES * t + p % ENTRIES;
      assert e == 2 * ENTRIES + p;
      TableInside(pages, |mem|, p);
      assert Follow(mem, base, mem[ENTRIES + t], p % ENTRIES) == Some(mem[2 * ENTRIES + p]);
      Directory(base, start, p);
    } else {
      assert pages <= ENTRIES * t;
    }
  }

  lemma TableInside(pages: nat, n: nat, p: nat)
    requires n % ENTRIES == 0 && pages <= (n / ENTRIES - 2) * ENTRIES && p / ENTRIES < TablesFor(pages)
    ensures 2 * ENTRIES + p < n
  {
  }

  lemma Directory(base: nat, start: nat, k: nat)
    requires Aligned(base) && Aligned(start)
    ensures MakeEntry(base + PAGE_SIZE * k) == base + PAGE_SIZE * k + 1
    ensures MakeEntry(base + PAGE_SIZE * k) % 2 == 1
    ensures MakeEntry(PageAddress(start, k)) == PageAddress(start, k) + 1
    ensures MakeEntry(PageAddress(start, k)) % 2 == 1
  {
    AlignedSteps(base, start, k);
    AlignedEntry(base + PAGE_SIZE * k);
    AlignedEntry(PageAddress(start, k));
  }

  // Page p is mapped exactly when the image reaches into it.
  lemma MappedPages(size: nat, p: nat)
    requires size > 0
    ensures p < PagesFor(size) <==> PAGE_SIZE * p < size
  {
  }

  /** Byte by byte: walking the tables for the byte off bytes into the image arrives at the byte
      off bytes behind its start, and walking them for a byte behind the last page arrives
      nowhere. Addresses are 32 bits wide, so the first holds for an image below 2^32. */
  lemma ImageMapped(mem: seq<nat>, base: nat, start: nat, size: nat, off: nat)
    requires Aligned(base) && Aligned(start) && |mem| % ENTRIES == 0 && |mem| <= (2 + ENTRIES) * ENTRIES
    requires 0 < size <= (|mem| / ENTRIES - 2) * ENTRIES * PAGE_SIZE && |mem| / ENTRIES > 2
    requires forall i :: 0 <= i < |mem| ==> mem[i] == EntryAt(base, start, PagesFor(size), TablesFor(PagesFor(size)), i)
    requires off / PAGE_SIZE < ENTRIES * ENTRIES && start + off < WORD
    ensures var page := Walk(mem, base, off / PAGE_SIZE);
            && (off < size ==> page.Some? && page.value + off % PAGE_SIZE == start + off)
            && (off >= size && off / PAGE_SIZE * PAGE_SIZE >= size ==> page.None?)
  {
    var p := off / PAGE_SIZE;
    EnoughPages(size, |mem| / ENTRIES - 2);
    WalkMaps(mem, base, start, PagesFor(size), p);
    MappedPages(size, p);
    PageAt(start, p, 0);
    hide Walk, EntryAt, PagesFor, PageAddress;
  }

  lemma EnoughPages(size: nat, tables: nat)
    requires 0 < size <= tables * ENTRIES * PAGE_SIZE
    ensures 0 < PagesFor(size) <= tables * ENTRIES
  {
  }

  // Where page p is, when addresses have wrapped so many times.
  lemma PageAt(start: nat, p: nat, wraps: nat)
    requires wraps * WORD <= start + 4096 * p < (wraps + 1) * WORD
    ensures PageAddress(start, p) == start + 4096 * p - wraps * WORD
  {
    var x := start + 4096 * p;
    assert x == x / WORD * WORD + x % WORD;
    assert (x / WORD - wraps) * WORD == x - wraps * WORD - x % WORD;
  }

  // There is a page table for each 512 pages, and no more.
  lemma TablesNeeded(pages: nat, t: nat)
    ensures t < TablesFor(pages) <==> ENTRIES * t < pages
  {
  }

  // The loader's builder: refuses an image that is too big or not on a page boundary.
  method BuildMlePagetable(mem: array<nat>, base: nat, start: nat, size: nat) returns (ok: bool)
    requires mem.Length == MLEPT_PAGES * ENTRIES && Aligned(base)
    modifies mem
    ensures ok <==> size <= MLEPT_BYTES_COVERED && Aligned(start)
    ensures !ok ==> mem[..] == old(mem[..])
    ensures ok ==> forall i :: 0 <= i < mem.Length ==>
              mem[i] == EntryAt(base, start, PagesFor(size), TablesFor(PagesFor(size)), i)
    ensures ok ==> forall p :: 0 <= p < ENTRIES * ENTRIES ==>
              Walk(mem[..], base, p) == if p < PagesFor(size) then Some(PageAddress(start, p)) else None
  {
    if size > MLEPT_BYTES_COVERED {
      return false;
    }
    if start % PAGE_SIZE != 0 {
      return false;
    }
    Build(mem, base, start, size);
    ok := true;
    hide Walk, EntryAt, PageAddress;
    forall p | 0 <= p < ENTRIES * ENTRIES
      ensures Walk(mem[..], base, p) == if p < PagesFor(size) then Some(PageAddress(start, p)) else None
    {
      WalkMaps(mem[..], base, start, PagesFor(size), p);
    }
  }
}
