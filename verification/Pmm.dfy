/** kernel/mm/pmm.c: the physical page allocator. It refines a set of free frame numbers. */
module Pmm {
  import opened Bitmap

  const PAGE_SIZE: nat := 4096
  const FRAMES_MAX: nat := 0x100000              // 4 GiB of frames
  const LOW_MEMORY: nat := 0x100000              // the reserved first megabyte

  /** A run of physical memory: an entry of the memory map, or something to keep. */
  datatype Region = Region(addr: nat, len: nat)

  function DivUp(n: nat, d: nat): nat
    requires d > 0
  {
    (n + d - 1) / d
  }

  /** The pages that bitmap_clear_range makes free. */
  function ClearedPages(r: Region): set<nat> {
    Pages(r.addr / PAGE_SIZE, r.len / PAGE_SIZE)
  }

  /** The pages that bitmap_set_range reserves. */
  function SetPages(r: Region): set<nat> {
    Pages(r.addr / PAGE_SIZE, DivUp(r.len, PAGE_SIZE))
  }

  predicate PageInside(p: nat, r: Region) {
    r.addr <= p * PAGE_SIZE && (p + 1) * PAGE_SIZE <= r.addr + r.len
  }

  predicate PageMeets(p: nat, r: Region) {
    p * PAGE_SIZE < r.addr + r.len && r.addr < (p + 1) * PAGE_SIZE
  }

  /** Only whole pages of available memory are freed if and only if the region starts on a page. */
  lemma ClearedAreInside(r: Region)
    ensures (forall p | p in ClearedPages(r) :: PageInside(p, r)) <==> r.addr % PAGE_SIZE == 0 || r.len < PAGE_SIZE
  {
    if r.addr % PAGE_SIZE != 0 && r.len >= PAGE_SIZE {
      var p := r.addr / PAGE_SIZE;
      assert p in ClearedPages(r) && !PageInside(p, r);
    }
  }

  /** Every page of a reserved region is kept if and only if its ends do not carry into one page more. */
  lemma ReservedAreKept(r: Region)
    requires r.len > 0
    ensures (forall p: nat | PageMeets(p, r) :: p in SetPages(r)) <==>
            r.addr % PAGE_SIZE + (r.len - 1) % PAGE_SIZE < PAGE_SIZE
  {
    var last := (r.addr + r.len - 1) / PAGE_SIZE;
    assert PageMeets(last, r);
  }

  /** No whole page of available memory is missed if and only if its ends do not carry either. */
  lemma InsideAreCleared(r: Region)
    ensures (forall p: nat | PageInside(p, r) :: p in ClearedPages(r)) <==>
            r.len < PAGE_SIZE || r.addr % PAGE_SIZE + r.len % PAGE_SIZE < PAGE_SIZE
  {
    var o, q := r.addr % PAGE_SIZE, r.len % PAGE_SIZE;
    var first, n := r.addr / PAGE_SIZE, r.len / PAGE_SIZE;
    if r.len >= PAGE_SIZE && o + q >= PAGE_SIZE {
      assert PageInside(first + n, r) && first + n !in ClearedPages(r);
    }
  }

  /** Only pages that meet a reserved region are reserved for it. */
  lemma ReservedMeet(r: Region)
    requires r.len > 0
    ensures forall p | p in SetPages(r) :: PageMeets(p, r)
  {
  }

  function ClearedBy(available: seq<Region>): set<nat> {
    if available == [] then {} else ClearedBy(available[..|available| - 1]) + ClearedPages(available[|available| - 1])
  }

  function SetBy(reserved: seq<Region>): set<nat> {
    if reserved == [] then {} else SetBy(reserved[..|reserved| - 1]) + SetPages(reserved[|reserved| - 1])
  }

  /** The free pages of a memory map are those of its regions, all of them. */
  lemma {:induction false} ClearedByAny(available: seq<Region>, p: nat)
    ensures p in ClearedBy(available) <==> exists i :: 0 <= i < |available| && p in ClearedPages(available[i])
    decreases |available|
  {
    hide ClearedPages;
    if available != [] {
      var n := |available| - 1;
      ClearedByAny(available[..n], p);
      if p in ClearedBy(available[..n]) {
        var i :| 0 <= i < n && p in ClearedPages(available[..n][i]);
        assert available[i] == available[..n][i];
      }
      if i :| 0 <= i < |available| && p in ClearedPages(available[i]) {
        if i < n { assert available[..n][i] == available[i]; }
      }
    }
  }

  /** And the kept ones those of the regions to keep. */
  lemma {:induction false} SetByAny(keep: seq<Region>, p: nat)
    ensures p in SetBy(keep) <==> exists i :: 0 <= i < |keep| && p in SetPages(keep[i])
    decreases |keep|
  {
    hide SetPages;
    if keep != [] {
      var n := |keep| - 1;
      SetByAny(keep[..n], p);
      if p in SetBy(keep[..n]) {
        var i :| 0 <= i < n && p in SetPages(keep[..n][i]);
        assert keep[i] == keep[..n][i];
      }
      if i :| 0 <= i < |keep| && p in SetPages(keep[i]) {
        if i < n { assert keep[..n][i] == keep[i]; }
      }
    }
  }

  predicate Fits(pages: nat, r: Region) {
    r.addr / PAGE_SIZE + DivUp(r.len, PAGE_SIZE) <= pages
  }

  function AllPages(n: nat): set<nat> {
    Pages(0, n)
  }

  lemma {:induction false} PagesCount(n: nat)
    ensures |AllPages(n)| == n
  {
    if n > 0 {
      assert AllPages(n) == AllPages(n - 1) + {n - 1};
      PagesCount(n - 1);
    }
  }

  lemma {:induction false} ClearedFit(n: nat, available: seq<Region>)
    requires forall r | r in available :: Fits(n, r)
    ensures ClearedBy(available) <= AllPages(n)
  {
    if available != [] {
      assert Fits(n, available[|available| - 1]);
      ClearedFit(n, available[..|available| - 1]);
    }
  }

  lemma LeftFree(all: set<nat>, cleared: set<nat>, low: set<nat>, kept: set<nat>)
    requires cleared <= all && 0 in low
    ensures all - (all - cleared + low + kept) == cleared - low - kept
    ensures low + kept <= all - cleared + low + kept && 0 in low + kept
  {
  }

  lemma LowHasZero()
    ensures 0 in Pages(0, LOW_MEMORY / PAGE_SIZE)
  {
  }

  /** The second pass of pmm_init over the memory map. */
  method ClearAvailable(b: Bitmap, available: seq<Region>)
    requires b.Valid() && forall r | r in available :: Fits(b.size, r)
    modifies b.bytes
    ensures b.Used() == old(b.Used()) - ClearedBy(available)
  {
    hide Bitmap.Used, Pages;
    for i := 0 to |available|
      invariant b.Used() == old(b.Used()) - ClearedBy(available[..i])
    {
      assert available[..i + 1][..i] == available[..i];
      assert Fits(b.size, available[i]);
      b.ClearRange(available[i].addr / PAGE_SIZE, available[i].len / PAGE_SIZE);
    }
    assert available[..|available|] == available;
  }

  method Reserve(b: Bitmap, keep: seq<Region>)
    requires b.Valid() && forall r | r in keep :: Fits(b.size, r)
    modifies b.bytes
    ensures b.Used() == old(b.Used()) + SetBy(keep)
  {
    hide Bitmap.Used, Pages;
    for i := 0 to |keep|
      invariant b.Used() == old(b.Used()) + SetBy(keep[..i])
    {
      assert keep[..i + 1][..i] == keep[..i];
      assert Fits(b.size, keep[i]);
      b.SetRange(keep[i].addr / PAGE_SIZE, DivUp(keep[i].len, PAGE_SIZE));
    }
    assert keep[..|keep|] == keep;
  }

  method CountFree(b: Bitmap) returns (free: nat)
    requires b.Valid()
    ensures free == |AllPages(b.size) - b.Used()|
  {
    hide Bitmap.Used;
    free := 0;
    for i := 0 to b.size
      invariant free == |AllPages(i) - b.Used()|
    {
      var used := b.Test(i);
      assert AllPages(i + 1) - b.Used() == AllPages(i) - b.Used() + if used then {} else {i};
      if !used { free := free + 1; }
    }
  }

  class Pmm {
    const bitmap: Bitmap
    const totalPages: nat
    var freePages: nat
    var failAllocations: nat
    ghost const reserved: set<nat>

    /** free_pages is the number of clear bits. */
    ghost predicate Counted()
      reads this, bitmap.bytes
    {
      bitmap.Valid() && bitmap.size == totalPages && totalPages <= FRAMES_MAX && freePages == |Free()|
    }

    /** And what pmm_init reserved is still in use. */
    ghost predicate Valid()
      reads this, bitmap.bytes
    {
      Counted() && 0 in reserved && reserved <= bitmap.Used()
    }

    ghost function Free(): set<nat>
      requires bitmap.Valid()
      reads bitmap.bytes
    {
      AllPages(totalPages) - bitmap.Used()
    }

    /** pmm_init from its second pass on. `total` is what the first pass computed. */
    constructor (total: nat, available: seq<Region>, keep: seq<Region>)
      requires LOW_MEMORY / PAGE_SIZE <= total <= FRAMES_MAX
      requires forall r | r in available || r in keep :: Fits(total, r)
      ensures Valid() && totalPages == total && failAllocations == 0 && fresh(bitmap.bytes)
      ensures reserved == Pages(0, LOW_MEMORY / PAGE_SIZE) + SetBy(keep)
      ensures Free() == ClearedBy(available) - Pages(0, 256) - SetBy(keep)
    {
      hide Bitmap.Used, ClearedBy, SetBy, Pages;
      var b := new Bitmap(total, 0xFF);
      ClearAvailable(b, available);
      b.SetRange(0, LOW_MEMORY / PAGE_SIZE);
      Reserve(b, keep);
      var free := CountFree(b);
      ghost var low := Pages(0, LOW_MEMORY / PAGE_SIZE);
      assert 0 in low by { LowHasZero(); }
      ClearedFit(total, available);
      bitmap, totalPages, freePages, failAllocations := b, total, free, 0;
      reserved := low + SetBy(keep);
      LeftFree(AllPages(total), ClearedBy(available), low, SetBy(keep));
    }

    /** The lowest free page, unless the test hook makes the call fail; never a reserved page. */
    method AllocPage() returns (addr: nat)
      requires Valid()
      modifies this, bitmap.bytes
      ensures Valid() && addr % PAGE_SIZE == 0
      ensures failAllocations == if old(failAllocations) == 0 then 0 else old(failAllocations) - 1
      ensures addr == 0 <==> old(failAllocations) != 0 || old(Free()) == {}
      ensures addr == 0 ==> Free() == old(Free())
      ensures addr != 0 ==>
                && addr / PAGE_SIZE < totalPages && addr / PAGE_SIZE in old(Free())
                && Free() == old(Free()) - {addr / PAGE_SIZE}
                && (forall p | p in old(Free()) :: addr / PAGE_SIZE <= p)
                && addr / PAGE_SIZE !in reserved
    {
      hide Bitmap.Used;
      if failAllocations != 0 {
        failAllocations := failAllocations - 1;
        return 0;
      }
      var page := 0;
      while page < totalPages
        invariant page <= totalPages && Valid() && Free() == old(Free()) && failAllocations == 0
        invariant forall p | p in Free() :: page <= p
      {
        var used := bitmap.Test(page);
        if !used {
          bitmap.Set(page);
          freePages := freePages - 1;
          assert Free() == old(Free()) - {page};
          return page * PAGE_SIZE;
        }
        page := page + 1;
      }
      return 0;
    }

    /**
     * A page that is already free, or does not exist, is left alone. Nothing keeps a caller from freeing a
     * reserved page, and that is the one way to lose one.
     */
    method FreePage(addr: nat)
      requires Counted()
      modifies this`freePages, bitmap.bytes
      ensures Counted()
      ensures old(Valid()) ==> (Valid() <==> addr / PAGE_SIZE !in reserved)
      ensures Free() == old(Free()) + if addr / PAGE_SIZE < totalPages then {addr / PAGE_SIZE} else {}
    {
      var page := addr / PAGE_SIZE;
      if page >= totalPages { return; }
      var used := bitmap.Test(page);
      if !used { return; }
      hide Bitmap.Used;
      bitmap.Clear(page);
      freePages := freePages + 1;
      assert Free() == old(Free()) + {page};
    }

    method FailNextAllocations(count: nat)
      requires Valid()
      modifies this`failAllocations
      ensures Valid() && failAllocations == count && Free() == old(Free())
    {
      failAllocations := count;
    }
  }
}
