/**
 * kernel/mm/vam.c: kernel virtual addresses as runs of pages, and the fixed slots of kernel stacks.
 * Live ranges and stacks are pairwise disjoint and keep off the reserved regions.
 */
module Vam {
  import opened Bitmap

  const PAGE_SIZE: nat := 4096
  const KERNEL_VIRT_BASE: nat := 0xC000_0000
  const KERNEL_IMAGE_BASE: nat := 0xC010_0000
  const KERNEL_HEAP_START: nat := 0xC100_0000
  const KERNEL_HEAP_END: nat := 0xCFFF_FFFF
  const KERNEL_STACKS_START: nat := 0xD000_0000
  const KERNEL_STACKS_END: nat := 0xDFFF_FFFF
  const KERNEL_STACK_SIZE: nat := 0x4000
  const VAM_TOTAL_PAGES: nat := 261120          // KERNEL_VIRT_SIZE / PAGE_SIZE
  const KERNEL_STACK_COUNT: nat := 16384

  function AddrToIndex(virt: nat): nat
    requires virt >= KERNEL_VIRT_BASE
  {
    (virt - KERNEL_VIRT_BASE) / PAGE_SIZE
  }

  function IndexToAddr(index: nat): nat {
    KERNEL_VIRT_BASE + index * PAGE_SIZE
  }

  lemma IndexRoundTrip(index: nat)
    ensures AddrToIndex(IndexToAddr(index)) == index
  {
  }

  /** A live run of pages. */
  datatype Range = Range(first: nat, count: nat)

  function PagesIn(r: Range): set<nat> {
    Pages(r.first, r.count)
  }

  function Region(start: nat, end: nat): set<nat>
    requires KERNEL_VIRT_BASE <= start <= end
  {
    Pages(AddrToIndex(start), (end - start) / PAGE_SIZE + 1)
  }

  /** A region that starts on a page reserves exactly the pages that it meets. */
  lemma RegionMeets(start: nat, end: nat, p: nat)
    requires KERNEL_VIRT_BASE <= start <= end && start % PAGE_SIZE == 0
    ensures p in Region(start, end) <==> start < 0xC000_0000 + (p + 1) * 4096 && 0xC000_0000 + p * 4096 <= end
  {
    var first, n := AddrToIndex(start), (end - start) / PAGE_SIZE + 1;
    assert start == 0xC000_0000 + first * 4096;
  }

  /** The `count` pages from index i on are free. */
  predicate RunFree(used: set<nat>, i: nat, count: nat) {
    forall p | i <= p < i + count :: p !in used
  }

  class Vam {
    const bitmap: Bitmap
    const stacks: Bitmap
    ghost var ranges: set<Range>           // handed out by vam_alloc_pages and not freed
    ghost const reserved: set<nat>

    ghost predicate Valid()
      reads this, bitmap.bytes
    {
      && bitmap.Valid() && bitmap.size == VAM_TOTAL_PAGES && stacks.Valid() && stacks.size == KERNEL_STACK_COUNT
      && bitmap.bytes != stacks.bytes
      && (forall r | r in ranges :: r.count > 0 && PagesIn(r) !! reserved)
      && (forall r, s | r in ranges && s in ranges && r != s :: PagesIn(r) !! PagesIn(s))
      && (forall p :: p in bitmap.Used() <==> p in reserved || exists r :: r in ranges && p in PagesIn(r))
    }

    /** vam_init; kernelEnd is the linker's kernel_virtual_end. */
    constructor (kernelEnd: nat)
      requires KERNEL_IMAGE_BASE < kernelEnd <= KERNEL_HEAP_START
      ensures Valid() && ranges == {} && stacks.Used() == {} && fresh(bitmap.bytes) && fresh(stacks.bytes)
      ensures reserved == Region(KERNEL_IMAGE_BASE, (kernelEnd + PAGE_SIZE - 1) / PAGE_SIZE * PAGE_SIZE - 1)
                          + Region(KERNEL_HEAP_START, KERNEL_HEAP_END) + Region(KERNEL_STACKS_START, KERNEL_STACKS_END)
    {
      hide Bitmap.Used;
      var b := new Bitmap(VAM_TOTAL_PAGES, 0);
      var s := new Bitmap(KERNEL_STACK_COUNT, 0);
      var imageEnd := (kernelEnd + PAGE_SIZE - 1) / PAGE_SIZE * PAGE_SIZE;
      ReserveRegion(b, KERNEL_IMAGE_BASE, imageEnd - 1);
      ReserveRegion(b, KERNEL_HEAP_START, KERNEL_HEAP_END);
      ReserveRegion(b, KERNEL_STACKS_START, KERNEL_STACKS_END);
      bitmap, stacks, ranges := b, s, {};
      reserved := Region(KERNEL_IMAGE_BASE, imageEnd - 1) + Region(KERNEL_HEAP_START, KERNEL_HEAP_END)
                  + Region(KERNEL_STACKS_START, KERNEL_STACKS_END);
    }

    /**
     * vam_alloc_pages takes the lowest free run, and fails only if there is none; `count` above the
     * total would underflow the bound of the loop.
     */
    method AllocPages(count: nat) returns (addr: nat)
      requires Valid() && count <= VAM_TOTAL_PAGES
      modifies this`ranges, bitmap.bytes
      ensures Valid()
      ensures count == 0 ==> addr == 0
      ensures addr == 0 ==> ranges == old(ranges) && bitmap.Used() == old(bitmap.Used())
      ensures addr == 0 && count > 0 ==>
                forall i | 0 <= i <= VAM_TOTAL_PAGES - count :: !RunFree(old(bitmap.Used()), i, count)
      ensures addr != 0 ==> addr >= KERNEL_VIRT_BASE
      ensures addr != 0 ==>
                var i := AddrToIndex(addr);
                && addr == 0xC000_0000 + i * 4096 && i + count <= VAM_TOTAL_PAGES
                && RunFree(old(bitmap.Used()), i, count)
                && (forall k | 0 <= k < i :: !RunFree(old(bitmap.Used()), k, count))
                && Range(i, count) !in old(ranges) && ranges == old(ranges) + {Range(i, count)}
    {
      hide Bitmap.Used;
      if count == 0 { return 0; }
      var index := 0;
      while index <= VAM_TOTAL_PAGES - count
        invariant 0 <= index && Valid() && ranges == old(ranges) && bitmap.Used() == old(bitmap.Used())
        invariant forall k | 0 <= k < index :: !RunFree(bitmap.Used(), k, count)
      {
        var free := bitmap.RangeFree(index, count);
        if free {
          bitmap.SetRange(index, count);
          IndexRoundTrip(index);
          assert index in PagesIn(Range(index, count));
          ranges := ranges + {Range(index, count)};
          return IndexToAddr(index);
        }
        index := index + 1;
      }
      return 0;
    }

    /** vam_free_pages of a live range. */
    method FreePages(addr: nat, count: nat)
      requires Valid() && addr >= KERNEL_VIRT_BASE
      requires count > 0 ==> Range(AddrToIndex(addr), count) in ranges && AddrToIndex(addr) + count <= VAM_TOTAL_PAGES
      modifies this`ranges, bitmap.bytes
      ensures Valid()
      ensures ranges == old(ranges) - if count == 0 then {} else {Range(AddrToIndex(addr), count)}
    {
      hide Bitmap.Used;
      if count == 0 { return; }
      var index := AddrToIndex(addr);
      bitmap.ClearRange(index, count);
      ranges := ranges - {Range(index, count)};
    }

    /** The lowest free slot, as the address of its base. */
    method AllocStack() returns (addr: nat)
      requires Valid()
      modifies stacks.bytes
      ensures Valid()
      ensures addr == 0 ==>
                stacks.Used() == old(stacks.Used()) && forall k: nat | k < KERNEL_STACK_COUNT :: k in stacks.Used()
      ensures addr != 0 ==> exists slot: nat :: slot < KERNEL_STACK_COUNT && addr == 0xD000_0000 + slot * 0x4000
                              && slot !in old(stacks.Used()) && stacks.Used() == old(stacks.Used()) + {slot}
                              && forall k: nat | k < slot :: k in old(stacks.Used())
    {
      hide Bitmap.Used;
      var slot := stacks.FirstClear();
      if slot == KERNEL_STACK_COUNT { return 0; }
      stacks.Set(slot);
      return StackBase(slot);
    }

    /** Addresses that are not the base of a slot are ignored. */
    method FreeStack(addr: nat)
      requires Valid()
      modifies stacks.bytes
      ensures Valid()
      ensures forall slot: nat | slot < KERNEL_STACK_COUNT && addr == 0xD000_0000 + slot * 0x4000 ::
                stacks.Used() == old(stacks.Used()) - {slot}
      ensures (forall slot: nat | slot < KERNEL_STACK_COUNT :: addr != StackBase(slot)) ==>
                stacks.Used() == old(stacks.Used())
    {
      hide Bitmap.Used;
      if addr == 0 { return; }
      if addr < KERNEL_STACKS_START || addr > KERNEL_STACKS_END { return; }
      if (addr - KERNEL_STACKS_START) % KERNEL_STACK_SIZE != 0 { return; }
      var slot := (addr - KERNEL_STACKS_START) / KERNEL_STACK_SIZE;
      if slot >= KERNEL_STACK_COUNT { return; }
      assert addr == StackBase(slot);
      stacks.Clear(slot);
    }
  }

  function StackBase(slot: nat): nat {
    KERNEL_STACKS_START + slot * KERNEL_STACK_SIZE
  }

  /** Slots do not overlap, and lie in the region that is reserved for them. */
  lemma StacksDisjoint(a: nat, b: nat)
    requires a < b < KERNEL_STACK_COUNT
    ensures StackBase(a) + KERNEL_STACK_SIZE <= StackBase(b)
    ensures forall v: nat | StackBase(b) <= v < StackBase(b) + KERNEL_STACK_SIZE ::
              AddrToIndex(v) in Region(KERNEL_STACKS_START, KERNEL_STACKS_END)
  {
  }

  /** vam_reserve_region; both addresses are inclusive. */
  method ReserveRegion(b: Bitmap, start: nat, end: nat)
    requires b.Valid() && KERNEL_VIRT_BASE <= start <= end
    requires AddrToIndex(start) + (end - start) / PAGE_SIZE + 1 <= b.size
    modifies b.bytes
    ensures b.Used() == old(b.Used()) + Region(start, end)
  {
    b.SetRange(AddrToIndex(start), (end - start) / PAGE_SIZE + 1);
  }
}
