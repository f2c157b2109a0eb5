/**
 * kernel/mm/vmm.c: ranges of pages in the kernel directory. An allocation maps all of its range or
 * nothing; the exact exception, a frame lost when a page table cannot be had, is stated too.
 */
module Vmm {
  import opened Bitmap
  import opened Pmm
  import opened PageTables
  import opened Paging
  import opened AddressSpace

  const KERNEL_FLAGS: nat := 3     // PAGE_PRESENT | PAGE_WRITABLE

  predicate InWindow(page: nat, count: nat, lo: nat, hi: nat) {
    lo * ENTRIES <= page && page + count <= hi * ENTRIES
  }

  function PagesOf(page: nat, count: nat): set<nat> {
    Pages(page, count)
  }

  /** The n-th page of the range is the first in a 4 MiB for which there is no table yet. */
  predicate NeedsTable(mem: Memory, d: nat, page: nat, n: nat) {
    !Present(mem, d, (page + n) / ENTRIES) && (n == 0 || (page + n) % ENTRIES == 0)
  }

  /** Frames that mapping the first n pages of the range takes: one each, and one for each new table. */
  function Cost(mem: Memory, d: nat, page: nat, n: nat): nat {
    if n == 0 then 0 else Cost(mem, d, page, n - 1) + 1 + if NeedsTable(mem, d, page, n - 1) then 1 else 0
  }

  lemma {:induction false} CostGrows(mem: Memory, d: nat, page: nat, a: nat, b: nat)
    requires a <= b
    ensures Cost(mem, d, page, a) + (b - a) <= Cost(mem, d, page, b)
  {
    if a < b { CostGrows(mem, d, page, a, b - 1); }
  }

  /** The frame for some page is there, but none is left for the table that the page needs. */
  ghost predicate Loses(mem: Memory, d: nat, page: nat, count: nat, free: nat) {
    exists n :: 0 <= n < count && NeedsTable(mem, d, page, n) && free == Cost(mem, d, page, n) + 1
  }

  lemma DropsNothing(mem: Memory, d: nat, lo: nat, hi: nat)
    ensures DropsTables(mem, mem, d, lo, hi) && KeepsTables(mem, mem, d)
  {
  }

  lemma DropsMore(mem0: Memory, mem1: Memory, mem2: Memory, d: nat, lo: nat, hi: nat)
    requires DropsTables(mem0, mem1, d, lo, hi) && DropsTables(mem1, mem2, d, lo, hi)
    ensures DropsTables(mem0, mem2, d, lo, hi)
  {
    hide Entry;
  }

  lemma ConservesMore(mem0: Memory, mem1: Memory, mem2: Memory, f0: set<nat>, f1: set<nat>, f2: set<nat>,
                      d: nat, lo: nat, hi: nat)
    requires Conserves(mem0, mem1, f0, f1, d, lo, hi) && Conserves(mem1, mem2, f1, f2, d, lo, hi)
    ensures Conserves(mem0, mem2, f0, f2, d, lo, hi)
  {
    hide Held;
  }

  lemma PageAt(virt: nat, i: nat)
    ensures (virt + i * PAGE_SIZE) / PAGE_SIZE == virt / PAGE_SIZE + i
  {
  }

  lemma WindowIndex(page: nat, count: nat, i: nat, lo: nat, hi: nat)
    requires InWindow(page, count, lo, hi) && i < count
    ensures lo <= (page + i) / ENTRIES < hi
  {
  }

  lemma PagesMore(page: nat, n: nat)
    ensures PagesOf(page, n + 1) == PagesOf(page, n) + {page + n}
  {
  }

  /** vmm_unmap_pages. */
  method UnmapPages(m: Paging, virt: nat, count: nat, ghost lo: nat, ghost hi: nat)
    requires Space(m, m.kernelDirectory, lo, hi) && InWindow(virt / PAGE_SIZE, count, lo, hi)
    modifies m.pmm`freePages, m.pmm.bitmap.bytes, m.ram
    ensures var d, mem := m.kernelDirectory, old(m.ram[..]);
            && Space(m, d, lo, hi) && DropsTables(mem, m.ram[..], d, lo, hi)
            && Flat(m.ram[..], d, lo, hi) == Flat(mem, d, lo, hi) - PagesOf(virt / PAGE_SIZE, count)
            && Conserves(mem, m.ram[..], old(m.pmm.Free()), m.pmm.Free(), d, lo, hi)
  {
    hide Flat, Entry, Shaped, NoEmptyTable, Pmm.Free, Space, Conserves, Frames, Present, Untouched, DropsTables;
    var d := m.kernelDirectory;
    SpaceValid(m, d, lo, hi);
    ghost var mem, free := m.ram[..], m.pmm.Free();
    ConservesNothing(mem, free, d, lo, hi);
    DropsNothing(mem, d, lo, hi);
    for i := 0 to count
      invariant Space(m, d, lo, hi) && DropsTables(mem, m.ram[..], d, lo, hi)
      invariant Flat(m.ram[..], d, lo, hi) == Flat(mem, d, lo, hi) - PagesOf(virt / PAGE_SIZE, i)
      invariant m.pmm.bitmap.Valid() && Conserves(mem, m.ram[..], free, m.pmm.Free(), d, lo, hi)
    {
      ghost var mem1, free1 := m.ram[..], m.pmm.Free();
      PageAt(virt, i);
      WindowIndex(virt / PAGE_SIZE, count, i, lo, hi);
      PagesMore(virt / PAGE_SIZE, i);
      ReleasePage(m, d, virt + i * PAGE_SIZE, lo, hi);
      DropsMore(mem, mem1, m.ram[..], d, lo, hi);
      ConservesMore(mem, mem1, m.ram[..], free, free1, m.pmm.Free(), d, lo, hi);
    }
  }

  /** The range of vmm_map_pages must be unmapped; paging_translate tells, as frame 0 is never mapped. */
  method RangeUnmapped(m: Paging, virt: nat, count: nat, ghost lo: nat, ghost hi: nat) returns (unmapped: bool)
    requires Space(m, m.kernelDirectory, lo, hi) && InWindow(virt / PAGE_SIZE, count, lo, hi)
    ensures unmapped <==> PagesOf(virt / PAGE_SIZE, count) !! Flat(m.ram[..], m.kernelDirectory, lo, hi).Keys
  {
    hide Flat, Entry, Shaped, NoEmptyTable, Pmm.Free, Space, Frames, Present;
    var d := m.kernelDirectory;
    SpaceValid(m, d, lo, hi);
    FramesAreUsed(m, d, lo, hi);
    for i := 0 to count
      invariant PagesOf(virt / PAGE_SIZE, i) !! Flat(m.ram[..], d, lo, hi).Keys
    {
      PageAt(virt, i);
      WindowIndex(virt / PAGE_SIZE, count, i, lo, hi);
      PagesMore(virt / PAGE_SIZE, i);
      var phys := m.Translate(d, virt + i * PAGE_SIZE, lo, hi);
      if phys != 0 {
        assert virt / PAGE_SIZE + i in PagesOf(virt / PAGE_SIZE, count);
        return false;
      }
    }
    return true;
  }

  /** The mapping of the first n pages of the range, one frame of `frames` each. */
  function Extended(flat: map<nat, Mapping>, page: nat, frames: seq<nat>): map<nat, Mapping> {
    if frames == [] then flat
    else
      var n := |frames| - 1;
      Extended(flat, page, frames[..n])[page + n := Mapping(frames[n], KERNEL_FLAGS)]
  }

  lemma ExtendedMore(flat: map<nat, Mapping>, page: nat, frames: seq<nat>, f: nat)
    ensures Extended(flat, page, frames + [f]) ==
            Extended(flat, page, frames)[page + |frames| := Mapping(f, KERNEL_FLAGS)]
  {
    assert (frames + [f])[..|frames|] == frames;
  }

  /** The first pages of the range are mapped to `frames`, which were free. */
  ghost predicate MappedBy(mem: Memory, mem': Memory, free: set<nat>, free': set<nat>, d: nat,
                           page: nat, frames: seq<nat>, lo: nat, hi: nat)
  {
    var flat := Flat(mem', d, lo, hi) == Extended(Flat(mem, d, lo, hi), page, frames);
    var tables := KeepsTables(mem, mem', d) && forall k: nat | |frames| == 0 || k > (page + |frames| - 1) / ENTRIES ::
                                                 Entry(mem', d, k) == Entry(mem, d, k);
    var pool := Conserves(mem, mem', free, free', d, lo, hi) && free' <= free && forall f | f in frames :: f in free;
    var cost := |free'| + Cost(mem, d, page, |frames|) == |free|;
    flat && tables && pool && cost
  }

  lemma MappedByNone(mem: Memory, free: set<nat>, d: nat, page: nat, lo: nat, hi: nat)
    ensures MappedBy(mem, mem, free, free, d, page, [], lo, hi)
  {
  }

  /** Whether the next page needs a table can be told from the memory before the whole call. */
  lemma NextNeedsTable(mem: Memory, mem': Memory, free: set<nat>, free': set<nat>, d: nat,
                       page: nat, frames: seq<nat>, lo: nat, hi: nat)
    requires MappedBy(mem, mem', free, free', d, page, frames, lo, hi)
    requires lo * ENTRIES <= page && page + |frames| < hi * ENTRIES
    ensures Present(mem', d, (page + |frames|) / ENTRIES) <==> !NeedsTable(mem, d, page, |frames|)
  {
    var n := |frames|;
    hide Flat, Conserves, KeepsTables, Cost, Entry, Present;
    if n > 0 && (page + n) % ENTRIES != 0 {
      ExtendedKeys(Flat(mem, d, lo, hi), page, frames);
      assert page + n - 1 in PagesOf(page, n);
      MappedMeansTable(mem', d, page + n - 1, lo, hi);
      SameTable(page + n);
    } else if n > 0 {
      NextTable(page + n);
      SameWord(mem, mem', d, (page + n) / ENTRIES);
    } else {
      SameWord(mem, mem', d, page / ENTRIES);
    }
  }

  lemma SameTable(p: nat)
    requires p % ENTRIES != 0
    ensures (p - 1) / ENTRIES == p / ENTRIES
  {
  }

  lemma NextTable(p: nat)
    requires p > 0 && p % ENTRIES == 0
    ensures (p - 1) / ENTRIES < p / ENTRIES
  {
  }

  lemma SameWord(mem: Memory, mem': Memory, d: nat, k: nat)
    requires Entry(mem', d, k) == Entry(mem, d, k)
    ensures Present(mem', d, k) == Present(mem, d, k)
  {
  }

  lemma MappedMeansTable(mem: Memory, d: nat, p: nat, lo: nat, hi: nat)
    requires p in Flat(mem, d, lo, hi)
    ensures Present(mem, d, p / ENTRIES)
  {
  }

  lemma MappedByMore(mem: Memory, mem1: Memory, mem2: Memory, free: set<nat>, free1: set<nat>, free2: set<nat>, f: nat,
                     can: bool, d: nat, page: nat, frames: seq<nat>, lo: nat, hi: nat)
    requires MappedBy(mem, mem1, free, free1, d, page, frames, lo, hi) && f in free1
    requires lo * ENTRIES <= page && page + |frames| < hi * ENTRIES
    requires TableTaken(mem1, mem2, free1 - {f}, free2, can, d, (page + |frames|) / ENTRIES, lo, hi)
    requires Present(mem1, d, (page + |frames|) / ENTRIES) || can
    requires Flat(mem2, d, lo, hi) == Flat(mem1, d, lo, hi)[page + |frames| := Mapping(f, KERNEL_FLAGS)]
    requires Conserves(mem1, mem2, free1, free2, d, lo, hi)
    ensures MappedBy(mem, mem2, free, free2, d, page, frames + [f], lo, hi)
  {
    hide Flat, Entry, Conserves, Present, Frames, Tables;
    NextNeedsTable(mem, mem1, free, free1, d, page, frames, lo, hi);
    TakenKeeps(mem1, mem2, free1 - {f}, free2, can, d, (page + |frames|) / ENTRIES, lo, hi);
    ExtendedMore(Flat(mem, d, lo, hi), page, frames, f);
    ConservesMore(mem, mem1, mem2, free, free1, free2, d, lo, hi);
    TakenSize(free1, free2, f);
  }

  lemma TakenSize(free1: set<nat>, free2: set<nat>, f: nat)
    requires f in free1 && free2 <= free1 - {f}
    ensures |free2| + |free1 - {f} - free2| + 1 == |free1|
  {
    assert free1 == free2 + (free1 - {f} - free2) + {f};
  }

  /** One page of vmm_map_pages: allocate and map. Nothing checks that the mapping was made. */
  method MapOne(m: Paging, virt: nat, ghost lo: nat, ghost hi: nat) returns (phys: nat, ghost lost: bool)
    requires Space(m, m.kernelDirectory, lo, hi) && lo <= virt / PAGE_SIZE / ENTRIES < hi
    requires virt / PAGE_SIZE !in Flat(m.ram[..], m.kernelDirectory, lo, hi)
    modifies m.pmm, m.pmm.bitmap.bytes, m.ram
    ensures Space(m, m.kernelDirectory, lo, hi)
    ensures m.pmm.failAllocations == if old(m.pmm.failAllocations) == 0 then 0 else old(m.pmm.failAllocations) - 1
    ensures phys == 0 <==> old(m.pmm.failAllocations) != 0 || old(m.pmm.Free()) == {}
    ensures phys == 0 ==> m.pmm.Free() == old(m.pmm.Free()) && m.ram[..] == old(m.ram[..]) && !lost
    ensures phys != 0 ==> phys / PAGE_SIZE in old(m.pmm.Free())
    ensures lost <==> phys != 0 && !Present(old(m.ram[..]), m.kernelDirectory, virt / PAGE_SIZE / ENTRIES)
                      && old(m.pmm.Free()) == {phys / PAGE_SIZE}
    ensures lost ==> m.ram[..] == old(m.ram[..]) && m.pmm.Free() == {}
    ensures phys != 0 && !lost ==>
              var d, mem, mem', f, index := m.kernelDirectory, old(m.ram[..]), m.ram[..], phys / PAGE_SIZE,
                                            virt / PAGE_SIZE / ENTRIES;
              var can := old(m.pmm.Free()) - {f} != {};
              && (Present(mem, d, index) || can)
              && Flat(mem', d, lo, hi) == Flat(mem, d, lo, hi)[virt / PAGE_SIZE := Mapping(f, KERNEL_FLAGS)]
              && Conserves(mem, mem', old(m.pmm.Free()), m.pmm.Free(), d, lo, hi)
              && TableTaken(mem, mem', old(m.pmm.Free()) - {f}, m.pmm.Free(), can, d, index, lo, hi)
  {
    hide Flat, Entry, Shaped, NoEmptyTable, Pmm.Free, Frames, Present, Conserves, TableTaken, Tables, PrivateLeaves,
      FlatFrames;
    phys := m.pmm.AllocPage();
    if phys == 0 { return phys, false; }
    ghost var free := old(m.pmm.Free());
    var f := phys / PAGE_SIZE;
    ghost var had, can := Present(m.ram[..], m.kernelDirectory, virt / PAGE_SIZE / ENTRIES), m.CanAlloc();
    FrameTaken(free, f);
    MapFrame(m, m.kernelDirectory, virt, f, KERNEL_FLAGS, lo, hi);
    lost := !had && !can;
  }

  lemma FrameTaken(free: set<nat>, f: nat)
    requires f in free
    ensures free - {f} + {f} == free && (free - {f} == {} <==> free == {f})
  {
    assert forall x | x in free && free - {f} == {} :: x == f || x in free - {f};
  }

  lemma {:induction false} ExtendedKeys(flat: map<nat, Mapping>, page: nat, frames: seq<nat>)
    ensures Extended(flat, page, frames).Keys == flat.Keys + PagesOf(page, |frames|)
    ensures forall p | p in flat && p !in PagesOf(page, |frames|) :: Extended(flat, page, frames)[p] == flat[p]
    ensures forall k | 0 <= k < |frames| :: Extended(flat, page, frames)[page + k] == Mapping(frames[k], KERNEL_FLAGS)
  {
    if frames != [] {
      ExtendedKeys(flat, page, frames[..|frames| - 1]);
      PagesMore(page, |frames| - 1);
    }
  }

  lemma ExtendedRemoved(flat: map<nat, Mapping>, page: nat, frames: seq<nat>, n: nat)
    requires |frames| <= n && PagesOf(page, n) !! flat.Keys
    ensures Extended(flat, page, frames) - PagesOf(page, n) == flat
  {
    ExtendedKeys(flat, page, frames);
    var flat' := Extended(flat, page, frames) - PagesOf(page, n);
    assert flat'.Keys == flat.Keys;
    assert forall p | p in flat :: p !in PagesOf(page, |frames|);
  }

  /** Unmapping what was mapped so far brings back the mappings and the free frames, `lost` aside. */
  lemma UnmappedAgain(mem: Memory, mem1: Memory, mem2: Memory, free: set<nat>, free1: set<nat>, free2: set<nat>,
                      lost: set<nat>, d: nat, page: nat, frames: seq<nat>, n: nat, lo: nat, hi: nat)
    requires Shaped(mem, d, lo, hi) && NoEmptyTable(mem, d, lo, hi) && Shaped(mem2, d, lo, hi)
             && NoEmptyTable(mem2, d, lo, hi)
    requires MappedBy(mem, mem1, free, free1 + lost, d, page, frames, lo, hi) && |frames| <= n
    requires PagesOf(page, n) !! Flat(mem, d, lo, hi).Keys && free !! Held(mem, d, lo, hi)
    requires DropsTables(mem1, mem2, d, lo, hi) && Conserves(mem1, mem2, free1, free2, d, lo, hi)
    requires Flat(mem2, d, lo, hi) == Flat(mem1, d, lo, hi) - PagesOf(page, n)
    requires free1 + lost !! Held(mem1, d, lo, hi) && free1 !! lost && free2 !! Held(mem2, d, lo, hi)
    ensures Flat(mem2, d, lo, hi) == Flat(mem, d, lo, hi) && free2 + lost == free && free2 !! lost
  {
    hide Flat, Entry, Shaped, NoEmptyTable, Held, Extended;
    ExtendedRemoved(Flat(mem, d, lo, hi), page, frames, n);
    StillKeeps(mem, mem1, mem2, d, lo, hi);
    assert free2 + lost + Held(mem2, d, lo, hi) == free + Held(mem, d, lo, hi);
    assert free2 + lost !! Held(mem2, d, lo, hi) && free2 !! lost;
    RolledBack(mem, mem2, free, free2 + lost, d, lo, hi);
  }

  // ----- the loop of vmm_map_pages -----

  /** After i rounds: `lost` is a frame that was allocated but could not be mapped. */
  ghost predicate MidRun(mem: Memory, now: Memory, free: set<nat>, freeNow: set<nat>, d: nat, page: nat,
                         frames: seq<nat>, lost: set<nat>, i: nat, lo: nat, hi: nat)
  {
    && MappedBy(mem, now, free, freeNow + lost, d, page, frames, lo, hi) && |frames| + |lost| == i
    && freeNow + lost !! Held(now, d, lo, hi) && freeNow !! lost
    && (lost != {} ==> |lost| == 1 && freeNow == {} && i > 0 && NeedsTable(mem, d, page, i - 1))
  }

  lemma MidStarts(mem: Memory, free: set<nat>, d: nat, page: nat, lo: nat, hi: nat)
    requires free !! Held(mem, d, lo, hi)
    ensures MidRun(mem, mem, free, free, d, page, [], {}, 0, lo, hi)
  {
    hide MappedBy, Held;
    MappedByNone(mem, free, d, page, lo, hi);
    assert free + {} == free;
  }

  lemma MidMaps(mem: Memory, mem1: Memory, mem2: Memory, free: set<nat>, free1: set<nat>, free2: set<nat>, f: nat,
                can: bool, d: nat, page: nat, frames: seq<nat>, i: nat, lo: nat, hi: nat)
    requires MidRun(mem, mem1, free, free1, d, page, frames, {}, i, lo, hi) && f in free1
    requires lo * ENTRIES <= page && page + i < hi * ENTRIES
    requires TableTaken(mem1, mem2, free1 - {f}, free2, can, d, (page + i) / ENTRIES, lo, hi)
    requires Present(mem1, d, (page + i) / ENTRIES) || can
    requires Flat(mem2, d, lo, hi) == Flat(mem1, d, lo, hi)[page + i := Mapping(f, KERNEL_FLAGS)]
    requires Conserves(mem1, mem2, free1, free2, d, lo, hi) && free2 !! Held(mem2, d, lo, hi)
    ensures MidRun(mem, mem2, free, free2, d, page, frames + [f], {}, i + 1, lo, hi)
  {
    hide MappedBy, Held, Flat, TableTaken, Conserves, Present;
    assert free1 + {} == free1 && free2 + {} == free2;
    MappedByMore(mem, mem1, mem2, free, free1, free2, f, can, d, page, frames, lo, hi);
  }

  lemma MidLoses(mem: Memory, now: Memory, free: set<nat>, f: nat, d: nat, page: nat, frames: seq<nat>, i: nat,
                 lo: nat, hi: nat)
    requires MidRun(mem, now, free, {f}, d, page, frames, {}, i, lo, hi)
    requires lo * ENTRIES <= page && page + i < hi * ENTRIES && !Present(now, d, (page + i) / ENTRIES)
    ensures MidRun(mem, now, free, {}, d, page, frames, {f}, i + 1, lo, hi)
  {
    hide MappedBy, Held, Present, NeedsTable;
    assert {f} + {} == {f} && {} + {f} == {f};
    NextNeedsTable(mem, now, free, {f}, d, page, frames, lo, hi);
  }

  lemma MidNextUnmapped(mem: Memory, now: Memory, free: set<nat>, freeNow: set<nat>, d: nat, page: nat,
                        frames: seq<nat>, lost: set<nat>, i: nat, count: nat, lo: nat, hi: nat)
    requires MidRun(mem, now, free, freeNow, d, page, frames, lost, i, lo, hi) && i < count
    requires PagesOf(page, count) !! Flat(mem, d, lo, hi).Keys
    ensures page + i !in Flat(now, d, lo, hi)
  {
    hide Flat, Held, Conserves, KeepsTables, Extended;
    ExtendedKeys(Flat(mem, d, lo, hi), page, frames);
    assert page + i in PagesOf(page, count) && page + i !in PagesOf(page, |frames|);
  }

  // ----- which way it ends depends on the number of free frames only -----

  /** How vmm_map_pages ends. */
  datatype Outcome = MappedAll | Restored | Lost

  function EndsBy(enough: bool, loses: bool): Outcome {
    if enough then MappedAll else if loses then Lost else Restored
  }

  ghost function Expected(mem: Memory, d: nat, page: nat, count: nat, free: nat): Outcome {
    EndsBy(free >= Cost(mem, d, page, count), Loses(mem, d, page, count, free))
  }

  lemma EnoughFrames(mem: Memory, d: nat, page: nat, count: nat, free: nat)
    requires free >= Cost(mem, d, page, count)
    ensures Expected(mem, d, page, count, free) == MappedAll && !Loses(mem, d, page, count, free)
  {
    forall n | 0 <= n < count && NeedsTable(mem, d, page, n) ensures free != Cost(mem, d, page, n) + 1 {
      CostGrows(mem, d, page, n + 1, count);
    }
  }

  lemma RanOut(mem: Memory, d: nat, page: nat, count: nat, i: nat, free: nat)
    requires i < count && free == Cost(mem, d, page, i)
    ensures Expected(mem, d, page, count, free) == Restored
  {
    CostGrows(mem, d, page, i, count);
    forall n | 0 <= n < count && NeedsTable(mem, d, page, n) ensures free != Cost(mem, d, page, n) + 1 {
      if n < i { CostGrows(mem, d, page, n + 1, i); } else { CostGrows(mem, d, page, i, n); }
    }
  }

  lemma LostOne(mem: Memory, d: nat, page: nat, count: nat, i: nat, free: nat)
    requires i < count && NeedsTable(mem, d, page, i) && free == Cost(mem, d, page, i) + 1
    ensures Expected(mem, d, page, count, free) == Lost
  {
    CostGrows(mem, d, page, i + 1, count);
  }

  lemma MidCosts(mem: Memory, now: Memory, free: set<nat>, freeNow: set<nat>, d: nat, page: nat,
                 frames: seq<nat>, lost: set<nat>, i: nat, lo: nat, hi: nat)
    requires MidRun(mem, now, free, freeNow, d, page, frames, lost, i, lo, hi)
    ensures lost == {} ==> |freeNow| + Cost(mem, d, page, i) == |free|
    ensures lost != {} ==>
              NeedsTable(mem, d, page, i - 1) && |free| == Cost(mem, d, page, i - 1) + 1 && |frames| == i - 1
    ensures lost <= free
  {
    hide Flat, Held, KeepsTables, Extended, NeedsTable, Conserves;
    if lost == {} { assert freeNow + lost == freeNow; } else { assert freeNow + lost == lost; }
  }

  // ----- the whole call -----

  /** Mappings and free frames after vmm_map_pages, which found `mem` and `free`. */
  ghost predicate Ended(mem: Memory, now: Memory, free: set<nat>, freeNow: set<nat>, d: nat, page: nat, count: nat,
                        outcome: Outcome, ok: bool, frames: seq<nat>, lost: set<nat>, lo: nat, hi: nat)
  {
    match outcome
    case MappedAll => ok && |frames| == count && MappedBy(mem, now, free, freeNow, d, page, frames, lo, hi)
    case Restored => !ok && Flat(now, d, lo, hi) == Flat(mem, d, lo, hi) && freeNow == free
    case Lost =>
      && |lost| == 1 && freeNow !! lost
      && if ok then |frames| == count - 1 && MappedBy(mem, now, free, freeNow + lost, d, page, frames, lo, hi)
         else Flat(now, d, lo, hi) == Flat(mem, d, lo, hi) && freeNow + lost == free
  }

  lemma EndsUnmapped(mem: Memory, mem1: Memory, mem2: Memory, free: set<nat>, free1: set<nat>, free2: set<nat>,
                     d: nat, page: nat, frames: seq<nat>, lost: set<nat>, i: nat, count: nat, lo: nat, hi: nat)
    requires MidRun(mem, mem1, free, free1, d, page, frames, lost, i, lo, hi) && i <= count
    requires Shaped(mem, d, lo, hi) && NoEmptyTable(mem, d, lo, hi) && Shaped(mem2, d, lo, hi)
             && NoEmptyTable(mem2, d, lo, hi)
    requires PagesOf(page, i) !! Flat(mem, d, lo, hi).Keys && free !! Held(mem, d, lo, hi)
    requires DropsTables(mem1, mem2, d, lo, hi) && Conserves(mem1, mem2, free1, free2, d, lo, hi)
    requires Flat(mem2, d, lo, hi) == Flat(mem1, d, lo, hi) - PagesOf(page, i) && free2 !! Held(mem2, d, lo, hi)
    ensures Ended(mem, mem2, free, free2, d, page, count, if lost == {} then Restored else Lost, false,
                  frames, lost, lo, hi)
  {
    hide Flat, Held, Conserves, MappedBy, DropsTables, Shaped, NoEmptyTable, NeedsTable;
    UnmappedAgain(mem, mem1, mem2, free, free1, free2, lost, d, page, frames, i, lo, hi);
  }

  lemma EndsMapped(mem: Memory, now: Memory, free: set<nat>, freeNow: set<nat>,
                   d: nat, page: nat, frames: seq<nat>, lost: set<nat>, count: nat, lo: nat, hi: nat)
    requires MidRun(mem, now, free, freeNow, d, page, frames, lost, count, lo, hi)
    ensures Ended(mem, now, free, freeNow, d, page, count, if lost == {} then MappedAll else Lost, true,
                  frames, lost, lo, hi)
  {
    hide Flat, Held, Conserves, MappedBy, NeedsTable;
    assert freeNow + {} == freeNow;
  }

  /** One round of vmm_map_pages; when it finds no frame nothing has happened. */
  method MapRound(m: Paging, virt: nat, i: nat, ghost count: nat, ghost mem: Memory, ghost free: set<nat>,
                  ghost frames: seq<nat>, ghost lost: set<nat>, ghost lo: nat, ghost hi: nat)
    returns (phys: nat, ghost frames': seq<nat>, ghost lost': set<nat>)
    requires Space(m, m.kernelDirectory, lo, hi) && InWindow(virt / PAGE_SIZE, count, lo, hi) && i < count
    requires MidRun(mem, m.ram[..], free, m.pmm.Free(), m.kernelDirectory, virt / PAGE_SIZE, frames, lost, i, lo, hi)
    requires PagesOf(virt / PAGE_SIZE, count) !! Flat(mem, m.kernelDirectory, lo, hi).Keys
    modifies m.pmm, m.pmm.bitmap.bytes, m.ram
    ensures Space(m, m.kernelDirectory, lo, hi)
    ensures MidRun(mem, m.ram[..], free, m.pmm.Free(), m.kernelDirectory, virt / PAGE_SIZE, frames', lost',
                   if phys == 0 then i else i + 1, lo, hi)
    ensures phys == 0 <==> old(m.pmm.failAllocations) != 0 || old(m.pmm.Free()) == {}
    ensures phys == 0 ==> frames' == frames && lost' == lost
    ensures old(m.pmm.failAllocations) == 0 ==> m.pmm.failAllocations == 0
  {
    hide Flat, Entry, Shaped, NoEmptyTable, Pmm.Free, Space, Frames, Present, Conserves, MappedBy, Tables, Held,
      TableTaken, NeedsTable, Extended, MidRun, PagesOf;
    ghost var d, page := m.kernelDirectory, virt / PAGE_SIZE;
    PageAt(virt, i);
    WindowIndex(page, count, i, lo, hi);
    SpaceValid(m, d, lo, hi);
    ghost var mem1, free1 := m.ram[..], m.pmm.Free();
    MidNextUnmapped(mem, mem1, free, free1, d, page, frames, lost, i, count, lo, hi);
    frames', lost' := frames, lost;
    ghost var gone;
    phys, gone := MapOne(m, virt + i * PAGE_SIZE, lo, hi);
    SpaceValid(m, d, lo, hi);
    if phys == 0 { return; }
    ghost var f := phys / PAGE_SIZE;
    assert lost == {} by { LostStops(mem, mem1, free, free1, d, page, frames, lost, i, lo, hi); }
    if gone {
      MidLoses(mem, mem1, free, f, d, page, frames, i, lo, hi);
      lost' := {f};
    } else {
      MidMaps(mem, mem1, m.ram[..], free, free1, m.pmm.Free(), f, free1 - {f} != {}, d, page, frames, i, lo, hi);
      frames' := frames + [f];
    }
  }

  /** The failure path of vmm_map_pages after i rounds. */
  method UndoPages(m: Paging, virt: nat, i: nat, ghost count: nat, ghost mem: Memory, ghost free: set<nat>,
                   ghost frames: seq<nat>, ghost lost: set<nat>, ghost lo: nat, ghost hi: nat)
    requires Space(m, m.kernelDirectory, lo, hi) && InWindow(virt / PAGE_SIZE, i, lo, hi) && i <= count
    requires MidRun(mem, m.ram[..], free, m.pmm.Free(), m.kernelDirectory, virt / PAGE_SIZE, frames, lost, i, lo, hi)
    requires Shaped(mem, m.kernelDirectory, lo, hi) && NoEmptyTable(mem, m.kernelDirectory, lo, hi)
    requires PagesOf(virt / PAGE_SIZE, i) !! Flat(mem, m.kernelDirectory, lo, hi).Keys
    requires free !! Held(mem, m.kernelDirectory, lo, hi)
    modifies m.pmm`freePages, m.pmm.bitmap.bytes, m.ram
    ensures Space(m, m.kernelDirectory, lo, hi)
    ensures Ended(mem, m.ram[..], free, m.pmm.Free(), m.kernelDirectory, virt / PAGE_SIZE, count,
                  if lost == {} then Restored else Lost, false, frames, lost, lo, hi)
  {
    hide Flat, Entry, Shaped, NoEmptyTable, Pmm.Free, Space, Present, Conserves, Held, DropsTables, MidRun, PagesOf,
      Ended;
    ghost var d := m.kernelDirectory;
    SpaceValid(m, d, lo, hi);
    ghost var mem1, free1 := m.ram[..], m.pmm.Free();
    UnmapPages(m, virt, i, lo, hi);
    SpaceValid(m, d, lo, hi);
    EndsUnmapped(mem, mem1, m.ram[..], free, free1, m.pmm.Free(), d, virt / PAGE_SIZE, frames, lost, i, count, lo, hi);
  }

  /**
   * All or nothing, with one exception: a page whose table cannot be had loses its frame. The number
   * of free frames decides: enough for all pages and tables, or exactly one when a table is due, or
   * neither; then mappings and free frames are as before.
   */
  method MapPages(m: Paging, virt: nat, count: nat, ghost lo: nat, ghost hi: nat)
    returns (ok: bool, ghost outcome: Outcome, ghost frames: seq<nat>, ghost lost: set<nat>)
    requires Space(m, m.kernelDirectory, lo, hi) && InWindow(virt / PAGE_SIZE, count, lo, hi)
    modifies m.pmm, m.pmm.bitmap.bytes, m.ram
    ensures Space(m, m.kernelDirectory, lo, hi)
    ensures Ended(old(m.ram[..]), m.ram[..], old(m.pmm.Free()), m.pmm.Free(), m.kernelDirectory,
                  virt / PAGE_SIZE, count, outcome, ok, frames, lost, lo, hi)
    ensures outcome ==
            if !(PagesOf(virt / PAGE_SIZE, count) !! Flat(old(m.ram[..]), m.kernelDirectory, lo, hi).Keys) then Restored
            else if count > 0 && old(m.pmm.failAllocations) != 0 then Restored
            else Expected(old(m.ram[..]), m.kernelDirectory, virt / PAGE_SIZE, count, |old(m.pmm.Free())|)
  {
    hide Flat, Entry, Shaped, NoEmptyTable, Pmm.Free, Space, Frames, Present, Conserves, MappedBy, Tables, Held,
      TableTaken, NeedsTable, Extended, DropsTables, MidRun, Expected, Cost, PagesOf;
    ghost var d, page := m.kernelDirectory, virt / PAGE_SIZE;
    SpaceValid(m, d, lo, hi);
    ghost var mem, free := m.ram[..], m.pmm.Free();
    frames, lost := [], {};
    var unmapped := RangeUnmapped(m, virt, count, lo, hi);
    if !unmapped { return false, Restored, [], {}; }
    MidStarts(mem, free, d, page, lo, hi);
    var i := 0;
    while i < count
      invariant i <= count && Space(m, d, lo, hi)
      invariant MidRun(mem, m.ram[..], free, m.pmm.Free(), d, page, frames, lost, i, lo, hi)
      invariant i > 0 ==> old(m.pmm.failAllocations) == 0
      invariant m.pmm.failAllocations == old(m.pmm.failAllocations)
    {
      ghost var left := m.pmm.Free();
      MidCosts(mem, m.ram[..], free, left, d, page, frames, lost, i, lo, hi);
      var phys;
      phys, frames, lost := MapRound(m, virt, i, count, mem, free, frames, lost, lo, hi);
      if phys == 0 {
        PagesFewer(page, i, count);
        UndoPages(m, virt, i, count, mem, free, frames, lost, lo, hi);
        if lost == {} {
          if left == {} { RanOut(mem, d, page, count, i, |free|); }
        } else {
          LostOne(mem, d, page, count, i - 1, |free|);
        }
        return false, if lost == {} then Restored else Lost, frames, lost;
      }
      SpaceValid(m, d, lo, hi);
      i := i + 1;
    }
    MidCosts(mem, m.ram[..], free, m.pmm.Free(), d, page, frames, lost, i, lo, hi);
    EndsMapped(mem, m.ram[..], free, m.pmm.Free(), d, page, frames, lost, count, lo, hi);
    if lost == {} {
      EnoughFrames(mem, d, page, count, |free|);
    } else {
      LostOne(mem, d, page, count, i - 1, |free|);
    }
    return true, if lost == {} then MappedAll else Lost, frames, lost;
  }

  lemma LostStops(mem: Memory, now: Memory, free: set<nat>, freeNow: set<nat>, d: nat, page: nat,
                  frames: seq<nat>, lost: set<nat>, i: nat, lo: nat, hi: nat)
    requires MidRun(mem, now, free, freeNow, d, page, frames, lost, i, lo, hi) && freeNow != {}
    ensures lost == {}
  {
  }

  lemma PagesFewer(page: nat, i: nat, count: nat)
    requires i <= count
    ensures PagesOf(page, i) <= PagesOf(page, count)
  {
  }

  /**
   * A complete allocation: every page of the range is present and writable (3), on a frame of its own that
   * was free, and every other page is mapped as before.
   */
  ghost predicate Backed(flat: map<nat, Mapping>, flat': map<nat, Mapping>, free: set<nat>,
                         page: nat, frames: seq<nat>)
  {
    && (forall k | 0 <= k < |frames| ::
          page + k in flat' && flat'[page + k] == Mapping(frames[k], 3) && frames[k] in free)
    && (forall j, k | 0 <= j < k < |frames| :: frames[j] != frames[k])
    && (forall p | !(page <= p < page + |frames|) :: p in flat' <==> p in flat)
    && (forall p | p in flat :: p in flat' && flat'[p] == flat[p])
  }

  lemma ExtendedBacked(flat: map<nat, Mapping>, free: set<nat>, page: nat, frames: seq<nat>)
    requires PagesOf(page, |frames|) !! flat.Keys && forall f | f in frames :: f in free
    requires forall p, q | p in Extended(flat, page, frames) && q in Extended(flat, page, frames) && p != q ::
               Extended(flat, page, frames)[p].frame != Extended(flat, page, frames)[q].frame
    ensures Backed(flat, Extended(flat, page, frames), free, page, frames)
  {
    var flat' := Extended(flat, page, frames);
    ExtendedKeys(flat, page, frames);
    hide Extended;
    forall k | 0 <= k < |frames| ensures page + k in flat' && flat'[page + k].frame == frames[k] {
      assert page + k in PagesOf(page, |frames|);
    }
    assert forall p | !(page <= p < page + |frames|) :: p !in PagesOf(page, |frames|);
    assert forall p | p in flat :: p !in PagesOf(page, |frames|);
  }

  lemma PrivateFrames(flat: map<nat, Mapping>, frames: set<nat>)
    requires Private(flat, frames)
    ensures forall p, q | p in flat && q in flat && p != q :: flat[p].frame != flat[q].frame
  {
  }

  /** With MapPages, the mappings page by page. */
  lemma RangeMapped(m: Paging, mem: Memory, free: set<nat>, d: nat, page: nat, frames: seq<nat>, lo: nat, hi: nat)
    requires Space(m, d, lo, hi) && PagesOf(page, |frames|) !! Flat(mem, d, lo, hi).Keys
    requires MappedBy(mem, m.ram[..], free, m.pmm.Free(), d, page, frames, lo, hi)
    ensures Backed(Flat(mem, d, lo, hi), Flat(m.ram[..], d, lo, hi), free, page, frames)
  {
    hide Flat, Extended, Conserves, KeepsTables, Entry, Shaped, NoEmptyTable, Pmm.Free, Present, Tables, Frames,
      FlatFrames, Cost, PagesOf, Backed, Private;
    PrivateFrames(Flat(m.ram[..], d, lo, hi), Frames(m.ram[..], d, lo, hi));
    ExtendedBacked(Flat(mem, d, lo, hi), free, page, frames);
  }

  /** vmm_alloc_pages: 0 for failure. */
  method AllocPages(m: Paging, virt: nat, count: nat, ghost lo: nat, ghost hi: nat)
    returns (addr: nat, ghost outcome: Outcome, ghost frames: seq<nat>, ghost lost: set<nat>)
    requires Space(m, m.kernelDirectory, lo, hi) && InWindow(virt / PAGE_SIZE, count, lo, hi) && virt != 0
    modifies m.pmm, m.pmm.bitmap.bytes, m.ram
    ensures Space(m, m.kernelDirectory, lo, hi)
    ensures addr != 0 ==> addr == virt && count > 0
    ensures count == 0 ==> addr == 0 && m.ram[..] == old(m.ram[..]) && m.pmm.Free() == old(m.pmm.Free())
    ensures count > 0 ==> Ended(old(m.ram[..]), m.ram[..], old(m.pmm.Free()), m.pmm.Free(), m.kernelDirectory,
                                virt / PAGE_SIZE, count, outcome, addr != 0, frames, lost, lo, hi)
    ensures count > 0 && PagesOf(virt / PAGE_SIZE, count) !! Flat(old(m.ram[..]), m.kernelDirectory, lo, hi).Keys &&
            old(m.pmm.failAllocations) == 0 ==>
              outcome == Expected(old(m.ram[..]), m.kernelDirectory, virt / PAGE_SIZE, count, |old(m.pmm.Free())|)
    ensures count > 0 && outcome == MappedAll ==>
              |frames| == count && Backed(Flat(old(m.ram[..]), m.kernelDirectory, lo, hi),
                                          Flat(m.ram[..], m.kernelDirectory, lo, hi),
                                          old(m.pmm.Free()), virt / PAGE_SIZE, frames)
  {
    if count == 0 { return 0, Restored, [], {}; }
    hide Expected, Space, Pmm.Free, Flat, MappedBy, Backed, PagesOf;
    ghost var mem, free := m.ram[..], m.pmm.Free();
    var ok;
    ok, outcome, frames, lost := MapPages(m, virt, count, lo, hi);
    addr := if ok then virt else 0;
    if outcome == MappedAll { RangeMapped(m, mem, free, m.kernelDirectory, virt / PAGE_SIZE, frames, lo, hi); }
  }

  /** vmm_free_pages after a successful vmm_alloc_pages restores the mappings and the free frames. */
  method FreePages(m: Paging, virt: nat, count: nat, ghost before: Memory, ghost free: set<nat>, ghost frames: seq<nat>,
                   ghost lo: nat, ghost hi: nat)
    requires Space(m, m.kernelDirectory, lo, hi) && InWindow(virt / PAGE_SIZE, count, lo, hi)
    requires Shaped(before, m.kernelDirectory, lo, hi) && NoEmptyTable(before, m.kernelDirectory, lo, hi)
    requires PagesOf(virt / PAGE_SIZE, count) !! Flat(before, m.kernelDirectory, lo, hi).Keys
    requires free !! Held(before, m.kernelDirectory, lo, hi) && |frames| == count
    requires MappedBy(before, m.ram[..], free, m.pmm.Free(), m.kernelDirectory, virt / PAGE_SIZE, frames, lo, hi)
    modifies m.pmm`freePages, m.pmm.bitmap.bytes, m.ram
    ensures Space(m, m.kernelDirectory, lo, hi) && m.pmm.Free() == free
    ensures Flat(m.ram[..], m.kernelDirectory, lo, hi) == Flat(before, m.kernelDirectory, lo, hi)
  {
    hide Flat, Entry, Shaped, NoEmptyTable, Pmm.Free, Space, Present, Conserves, MappedBy, Held, DropsTables, PagesOf;
    SpaceValid(m, m.kernelDirectory, lo, hi);
    ghost var d, page, mem1, free1 := m.kernelDirectory, virt / PAGE_SIZE, m.ram[..], m.pmm.Free();
    assert free1 + {} == free1;
    UnmapPages(m, virt, count, lo, hi);
    SpaceValid(m, d, lo, hi);
    UnmappedAgain(before, mem1, m.ram[..], free, free1, m.pmm.Free(), {}, d, page, frames, count, lo, hi);
  }

  /**
   * "All or nothing" fails, for instance, for one page of a 4 MiB without a table when one frame is
   * left: the frame is allocated and paging_map, which finds none for the table, does not map it.
   */
  lemma LossHappens(mem: Memory, d: nat, page: nat)
    requires !Present(mem, d, page / ENTRIES)
    ensures Expected(mem, d, page, 1, 1) == Lost
  {
    assert NeedsTable(mem, d, page, 0);
    assert Cost(mem, d, page, 0) == 0;
  }
}
