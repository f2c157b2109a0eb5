/**
 * kernel/kernel/elf_loader.c. The words of page tables are in `m.ram`; what a frame holds as a page of
 * bytes is in `data`. The kernel heap is a parameter: what each kmalloc takes and whether it fails.
 */
module ElfLoader {
  import opened Sequences
  import opened Bytes
  import opened Bitmap
  import opened Pmm
  import opened PageTables
  import opened Paging
  import opened AddressSpace
  import opened ElfImage
  import opened ElfPlan

  /** A kmalloc of a tracking node: the frames by which the heap grows, and whether it then fails. */
  datatype HeapCall = HeapCall(grows: nat, fails: bool)

  /** The call that allocates the n-th tracking node. */
  function CallAt(calls: seq<HeapCall>, n: nat): HeapCall {
    if n < |calls| then calls[n] else HeapCall(0, false)
  }

  /** Frames that are enough for n pages: for each its own, a table, and what the heap grows by. */
  function Need(calls: seq<HeapCall>, n: nat): nat {
    if n == 0 then 0 else Need(calls, n - 1) + 2 + CallAt(calls, n - 1).grows
  }

  /** Neither the heap nor the page allocator gets in the way of loading n pages. */
  ghost predicate Suffices(calls: seq<HeapCall>, n: nat, free: nat) {
    (forall k | 0 <= k < n :: !CallAt(calls, k).fails) && free >= Need(calls, n)
  }

  lemma {:induction false} NeedGrows(calls: seq<HeapCall>, a: nat, b: nat)
    requires a <= b
    ensures Need(calls, a) <= Need(calls, b)
  {
    if a < b { NeedGrows(calls, a, b - 1); }
  }

  /** With `free` frames to begin with, the (n + 1)-st page of `total` could not be loaded. */
  lemma DoesNotSuffice(calls: seq<HeapCall>, n: nat, total: nat, left: nat, free: nat)
    requires n < total && left + Need(calls, n) >= free
    requires CallAt(calls, n).fails || left < 2 + CallAt(calls, n).grows
    ensures !Suffices(calls, total, free)
  {
    NeedGrows(calls, n + 1, total);
  }

  lemma SufficesFewer(calls: seq<HeapCall>, n: nat, total: nat, free: nat)
    requires n <= total && Suffices(calls, total, free)
    ensures Suffices(calls, n, free)
  {
    NeedGrows(calls, n, total);
  }

  ghost predicate Ready(m: Paging, data: array<seq<byte>>, d: nat)
    reads m.ram, m.pmm, m.pmm.bitmap.bytes
  {
    && Space(m, d, 0, HI) && data.Length == m.pmm.totalPages
    && (data as object) != (m.ram as object) && (data as object) != (m.pmm.bitmap.bytes as object)
  }

  method Kmalloc(m: Paging, call: HeapCall, ghost d: nat, ghost mem: Memory, ghost free: set<nat>, ghost heap: set<nat>)
    returns (ok: bool, ghost heap': set<nat>)
    requires Space(m, d, 0, HI) && FramesKept(mem, m.ram[..], free, m.pmm.Free(), heap, d)
    modifies m.pmm, m.pmm.bitmap.bytes
    ensures Space(m, d, 0, HI) && m.ram[..] == old(m.ram[..]) && m.pmm.Free() <= old(m.pmm.Free())
    ensures FramesKept(mem, m.ram[..], free, m.pmm.Free(), heap', d)
    ensures old(m.pmm.failAllocations) == 0 ==> m.pmm.failAllocations == 0
    ensures ok ==> |m.pmm.Free()| + call.grows == old(|m.pmm.Free()|)
    ensures !ok ==> call.fails || old(m.pmm.failAllocations) != 0 || old(|m.pmm.Free()|) < call.grows
  {
    hide Space, FramesKept, Pmm.Free, Flat;
    SpaceValid(m, d, 0, HI);
    heap' := heap;
    for n := 0 to call.grows
      invariant old(m.pmm.failAllocations) == 0 ==> m.pmm.failAllocations == 0
      invariant |m.pmm.Free()| + n == old(|m.pmm.Free()|)
      invariant Space(m, d, 0, HI) && m.ram[..] == old(m.ram[..]) && m.pmm.Free() <= old(m.pmm.Free())
      invariant FramesKept(mem, m.ram[..], free, m.pmm.Free(), heap', d)
    {
      ghost var now := m.pmm.Free();
      var f := TakeFrame(m, d, 0, HI);
      if f == 0 { return false, heap'; }
      HeapTakes(mem, m.ram[..], free, now, heap', d, f);
      heap' := heap' + {f};
    }
    ok := !call.fails;
  }

  function ZeroPage(): seq<byte> {
    seq<byte>(PAGE_SIZE, _ => 0)
  }

  /** The memcpy into a zeroed page, with the offsets that elf_load computes. */
  method CopyPage(data: array<seq<byte>>, f: nat, image: seq<byte>, s: Segment, page: nat)
    requires f < data.Length && Sound(s, |image|) && page >= FirstPage(s) && data[f] == ZeroPage()
    modifies data
    ensures data[..] == old(data[..])[f := PageBytes(image, s, page)]
  {
    var pageOffset := 0;
    if page == s.vaddr / PAGE_SIZE { pageOffset := s.vaddr % PAGE_SIZE; }
    var copyOffset := (page - s.vaddr / PAGE_SIZE) * PAGE_SIZE + pageOffset;
    var copySize := 0;
    if copyOffset < s.filesz {
      copySize := s.filesz - copyOffset;
      if copySize > PAGE_SIZE - pageOffset { copySize := PAGE_SIZE - pageOffset; }
    }
    var zeros := data[f];
    if copySize != 0 {
      var from := s.offset + copyOffset;
      data[f] := zeros[..pageOffset] + image[from..from + copySize] + zeros[pageOffset + copySize..];
    }
    forall o: nat | o < PAGE_SIZE ensures data[f][o] == PageBytes(image, s, page)[o] {
      AddressSplit(page, o);
    }
    assert data[f] == PageBytes(image, s, page);
  }

  lemma AddressSplit(page: nat, o: nat)
    requires o < PAGE_SIZE
    ensures (page * PAGE_SIZE + o) / PAGE_SIZE == page && (page * PAGE_SIZE + o) % PAGE_SIZE == o
  {
  }

  lemma TakenLess(mem: Memory, now: Memory, free: set<nat>, freeNow: set<nat>, can: bool, d: nat, i: nat)
    requires TableTaken(mem, now, free, freeNow, can, d, i, 0, HI)
    ensures freeNow <= free && |freeNow| + 1 >= |free|
  {
    hide Tables, Untouched, Entry;
    assert free == freeNow + (free - freeNow);
  }

  /** Map a frame and check that the mapping is there; if not, undo. */
  method MapChecked(m: Paging, d: nat, page: nat, f: nat, flags: nat) returns (ok: bool)
    requires Space(m, d, 0, HI) && page < USER_PAGES && page !in Flat(m.ram[..], d, 0, HI)
    requires Fresh(m, d, 0, HI, f) && flags < PAGE_SIZE && IsPresent(flags)
    modifies m.pmm, m.pmm.bitmap.bytes, m.ram
    ensures Space(m, d, 0, HI) && KeepsTables(old(m.ram[..]), m.ram[..], d)
    ensures !ok ==> Flat(m.ram[..], d, 0, HI) == Flat(old(m.ram[..]), d, 0, HI) && m.pmm.Free() == old(m.pmm.Free())
                    && Held(m.ram[..], d, 0, HI) == Held(old(m.ram[..]), d, 0, HI)
    ensures ok ==> Flat(m.ram[..], d, 0, HI) == Flat(old(m.ram[..]), d, 0, HI)[page := Mapping(f, flags)]
                   && Conserves(old(m.ram[..]), m.ram[..], old(m.pmm.Free()) + {f}, m.pmm.Free(), d, 0, HI)
                   && m.pmm.Free() <= old(m.pmm.Free()) && |m.pmm.Free()| + 1 >= old(|m.pmm.Free()|)
    ensures !ok ==> !old(m.CanAlloc())
    ensures old(m.pmm.failAllocations) == 0 ==> m.pmm.failAllocations == 0
  {
    hide Space, Flat, Held, Pmm.Free, Conserves, FlatFrames, KeepsTables, TableTaken;
    UserWindow(page);
    KeepsItself(m.ram[..], d);
    ghost var mem, free, can := m.ram[..], m.pmm.Free(), m.CanAlloc();
    MapFrame(m, d, page * PAGE_SIZE, f, flags, 0, HI);
    TakenLess(mem, m.ram[..], free, m.pmm.Free(), can, d, page / ENTRIES);
    assert f * PAGE_SIZE / PAGE_SIZE == f;
    SpaceValid(m, d, 0, HI);
    var translated := m.Translate(d, page * PAGE_SIZE, 0, HI);
    ok := translated == f * PAGE_SIZE;
    if !ok { UnmapAbsent(m, d, page * PAGE_SIZE, 0, HI); }
  }

  /** Allocate a frame, zero it and map it; 0 if any of it fails. */
  method MapNewPage(m: Paging, data: array<seq<byte>>, d: nat, page: nat, flags: nat)
    returns (f: nat, ghost touched: nat)
    requires Ready(m, data, d) && page < USER_PAGES && page !in Flat(m.ram[..], d, 0, HI)
    requires flags < PAGE_SIZE && IsPresent(flags)
    modifies m.pmm, m.pmm.bitmap.bytes, m.ram, data
    ensures Ready(m, data, d) && KeepsTables(old(m.ram[..]), m.ram[..], d)
    ensures f == 0 ==> Flat(m.ram[..], d, 0, HI) == Flat(old(m.ram[..]), d, 0, HI) && m.pmm.Free() == old(m.pmm.Free())
                       && Held(m.ram[..], d, 0, HI) == Held(old(m.ram[..]), d, 0, HI)
    ensures f != 0 ==> Flat(m.ram[..], d, 0, HI) == Flat(old(m.ram[..]), d, 0, HI)[page := Mapping(f, flags)]
                       && Conserves(old(m.ram[..]), m.ram[..], old(m.pmm.Free()), m.pmm.Free(), d, 0, HI)
                       && f in old(m.pmm.Free()) && m.pmm.Free() <= old(m.pmm.Free())
                       && f < data.Length && data[f] == ZeroPage() && |m.pmm.Free()| + 2 >= old(|m.pmm.Free()|)
    ensures f == 0 ==> old(m.pmm.failAllocations) != 0 || old(|m.pmm.Free()|) < 2
    ensures old(m.pmm.failAllocations) == 0 ==> m.pmm.failAllocations == 0
    ensures touched !in FlatFrames(Flat(old(m.ram[..]), d, 0, HI)) && (f != 0 ==> touched == f)
    ensures forall h | 0 <= h < data.Length && h != touched :: data[h] == old(data[h])
  {
    hide Space, Flat, Held, Pmm.Free, Conserves, KeepsTables, FlatFrames;
    SpaceValid(m, d, 0, HI);
    UsedApart(m, d);
    KeepsItself(m.ram[..], d);
    ghost var free := m.pmm.Free();
    f := TakeFrame(m, d, 0, HI);
    touched := f;
    if f == 0 { return; }
    FreeAgain(free, f);
    data[f] := ZeroPage();
    var ok := MapChecked(m, d, page, f, flags);
    if !ok {
      FreeFresh(m, d, f, 0, HI);
      f := 0;
    }
  }

  lemma UsedApart(m: Paging, d: nat)
    requires Space(m, d, 0, HI)
    ensures var used := FlatFrames(Flat(m.ram[..], d, 0, HI)); 0 !in used && m.pmm.Free() !! used
  {
  }

  lemma SegmentFlags(s: Segment)
    ensures PageFlags(s) < PAGE_SIZE && IsPresent(PageFlags(s))
    ensures PageFlags(s) / 4 % 2 == 1 && (PageFlags(s) / 2 % 2 == 1 <==> s.flags / 2 % 2 == 1)
  {
  }

  /** One round of the inner loop of elf_load: the page is loaded, or everything is as before. */
  method LoadPage(m: Paging, data: array<seq<byte>>, d: nat, image: seq<byte>, s: Segment, page: nat, call: HeapCall,
                  ghost mem: Memory, ghost free: set<nat>, ghost heap: set<nat>, ghost done: seq<Item>)
    returns (ok: bool, ghost heap': set<nat>)
    requires Ready(m, data, d) && m.pmm.Free() <= free && Shaped(mem, d, 0, HI) && NoEmptyTable(mem, d, 0, HI)
    requires Loaded(mem, m.ram[..], free, m.pmm.Free(), heap, d, data[..], image, done)
    requires page < USER_PAGES && Proper(Item(page, s), |image|)
    requires page !in Flat(mem, d, 0, HI) && page !in PagesIn(done)
    modifies m.pmm, m.pmm.bitmap.bytes, m.ram, data
    ensures Ready(m, data, d)
    ensures ok ==> m.pmm.Free() <= free && |m.pmm.Free()| + 2 + call.grows >= old(|m.pmm.Free()|)
    ensures Loaded(mem, m.ram[..], free, m.pmm.Free(), heap', d, data[..], image,
                   if ok then done + [Item(page, s)] else done)
    ensures !ok ==> old(m.pmm.failAllocations) != 0 || call.fails || old(|m.pmm.Free()|) < 2 + call.grows
    ensures old(m.pmm.failAllocations) == 0 ==> m.pmm.failAllocations == 0
  {
    hide Space, Flat, Held, Pmm.Free, Conserves, KeepsTables, FlatFrames, FramesKept, PagesLoaded, PageBytes, PageFlags,
      DropsTables, Shaped, NoEmptyTable;
    var item := Item(page, s);
    SpaceValid(m, d, 0, HI);
    UsedApart(m, d);
    SegmentFlags(s);
    NewPageNotMapped(mem, m.ram[..], free, m.pmm.Free(), heap, d, data[..], image, done, item);
    ghost var flat0, flat := Flat(mem, d, 0, HI), Flat(m.ram[..], d, 0, HI);
    ghost var now, free1, data1 := m.ram[..], m.pmm.Free(), data[..];
    var f, touched := MapNewPage(m, data, d, page, PageFlags(s));
    SpaceValid(m, d, 0, HI);
    PagesLoadedElsewhere(flat0, flat, data1, data[..], free, image, done, touched);
    if f == 0 {
      FramesKeptSame(mem, now, m.ram[..], free, free1, heap, d);
      return false, heap;
    }
    LoadedFrames(mem, now, m.ram[..], free, free1, m.pmm.Free(), heap, d);
    ok, heap' := Kmalloc(m, call, d, mem, free, heap);
    SpaceValid(m, d, 0, HI);
    if !ok {
      UndoPage(m, data, d, page, f, flat, PageFlags(s), image, mem, free, heap', done);
      return;
    }
    ghost var data2 := data[..];
    CopyPage(data, f, image, s, page);
    PagesLoadedMore(flat0, flat, data2, data[..], free, image, done, item, f);
  }

  /** The page just mapped goes again, as no tracking node can be had for it. */
  method UndoPage(m: Paging, data: array<seq<byte>>, d: nat, page: nat, f: nat, ghost flat: map<nat, Mapping>,
                  ghost flags: nat, ghost image: seq<byte>, ghost mem: Memory, ghost free: set<nat>,
                  ghost heap: set<nat>, ghost done: seq<Item>)
    requires Ready(m, data, d) && Shaped(mem, d, 0, HI) && NoEmptyTable(mem, d, 0, HI)
    requires FramesKept(mem, m.ram[..], free, m.pmm.Free(), heap, d) && page < USER_PAGES && page !in flat
    requires Flat(m.ram[..], d, 0, HI) == flat[page := Mapping(f, flags)]
    requires PagesLoaded(Flat(mem, d, 0, HI), flat, data[..], free, image, done)
    modifies m.pmm`freePages, m.pmm.bitmap.bytes, m.ram
    ensures Ready(m, data, d) && Loaded(mem, m.ram[..], free, m.pmm.Free(), heap, d, data[..], image, done)
  {
    hide Space, Flat, Held, Pmm.Free, Conserves, KeepsTables, FlatFrames, FramesKept, PagesLoaded, DropsTables, Shaped,
      NoEmptyTable;
    SpaceValid(m, d, 0, HI);
    ghost var now, free1 := m.ram[..], m.pmm.Free();
    UserWindow(page);
    UnmapMapped(m, d, page * PAGE_SIZE, f, 0, HI);
    FreeFresh(m, d, f, 0, HI);
    SpaceValid(m, d, 0, HI);
    MappedAndUnmapped(flat, page, Mapping(f, flags));
    OldPagesStay(Flat(mem, d, 0, HI), flat, data[..], free, image, done);
    UnmappedFrames(mem, now, m.ram[..], free, free1, m.pmm.Free(), heap, d);
  }

  lemma LoadedFrames(mem: Memory, mem1: Memory, mem2: Memory, free: set<nat>, free1: set<nat>, free2: set<nat>,
                     heap: set<nat>, d: nat)
    requires FramesKept(mem, mem1, free, free1, heap, d) && KeepsTables(mem1, mem2, d)
    requires Conserves(mem1, mem2, free1, free2, d, 0, HI) && free2 !! Held(mem2, d, 0, HI)
    ensures FramesKept(mem, mem2, free, free2, heap, d)
  {
    hide KeepsTables, Held, Conserves;
    KeepsMore(mem, mem1, mem2, d);
    FramesKeptMore(mem, mem1, mem2, free, free1, free2, heap, d);
  }

  /** The tracking list holds the pages done, in order. */
  ghost predicate Tracks(loaded: seq<nat>, done: seq<Item>) {
    |loaded| == |done| && forall k | 0 <= k < |done| :: loaded[k] == done[k].page
  }

  /** The inner loop of elf_load. */
  method LoadSegment(m: Paging, data: array<seq<byte>>, d: nat, image: seq<byte>, s: Segment, calls: seq<HeapCall>,
                     before: seq<nat>, ghost mem: Memory, ghost free: set<nat>, ghost heap: set<nat>,
                     ghost done: seq<Item>)
    returns (ok: bool, loaded: seq<nat>, ghost heap': set<nat>, ghost done': seq<Item>)
    requires Ready(m, data, d) && m.pmm.Free() <= free && Shaped(mem, d, 0, HI) && NoEmptyTable(mem, d, 0, HI)
    requires Loaded(mem, m.ram[..], free, m.pmm.Free(), heap, d, data[..], image, done) && Tracks(before, done)
    requires Sound(s, |image|) && Disjoint(done + SegmentPlan(s, PageCount(s)), Flat(mem, d, 0, HI))
    requires |m.pmm.Free()| + Need(calls, |done|) >= |free|
    modifies m.pmm, m.pmm.bitmap.bytes, m.ram, data
    ensures Ready(m, data, d) && Tracks(loaded, done')
    ensures Loaded(mem, m.ram[..], free, m.pmm.Free(), heap', d, data[..], image, done')
    ensures done' <= done + SegmentPlan(s, PageCount(s))
    ensures ok ==> m.pmm.Free() <= free && done' == done + SegmentPlan(s, PageCount(s))
                   && |m.pmm.Free()| + Need(calls, |done'|) >= |free|
    ensures !ok ==> old(m.pmm.failAllocations) != 0 || !Suffices(calls, |done + SegmentPlan(s, PageCount(s))|, |free|)
    ensures old(m.pmm.failAllocations) == 0 ==> m.pmm.failAllocations == 0
  {
    hide Ready, Loaded, Shaped, NoEmptyTable, Flat, Pmm.Free, SegmentPlan, Disjoint, Sound, Suffices;
    ReadyValid(m, data, d);
    ghost var plan := done + SegmentPlan(s, PageCount(s));
    loaded, heap', done' := before, heap, done;
    var page := FirstPage(s);
    ghost var n := 0;
    PlanPrefix(s, done, 0);
    while page < EndPage(s)
      invariant FirstPage(s) <= page && n == page - FirstPage(s) <= PageCount(s)
      invariant Ready(m, data, d) && m.pmm.bitmap.Valid() && m.pmm.Free() <= free && Tracks(loaded, done')
      invariant Loaded(mem, m.ram[..], free, m.pmm.Free(), heap', d, data[..], image, done')
      invariant done' == plan[..|done| + n] && |done| + n <= |plan|
      invariant |m.pmm.Free()| + Need(calls, |done'|) >= |free|
      invariant old(m.pmm.failAllocations) == 0 ==> m.pmm.failAllocations == 0
      decreases EndPage(s) - page
    {
      ghost var left := |m.pmm.Free()|;
      PlanPrefix(s, done, n);
      NextInPlan(plan, Flat(mem, d, 0, HI), |done| + n);
      ok, heap' := LoadPage(m, data, d, image, s, page, CallAt(calls, |loaded|), mem, free, heap', done');
      if !ok {
        if old(m.pmm.failAllocations) == 0 { DoesNotSuffice(calls, |done'|, |done| + PageCount(s), left, |free|); }
        return;
      }
      loaded := loaded + [page];
      done' := done' + [Item(page, s)];
      page, n := page + 1, n + 1;
    }
    ok := true;
  }

  lemma ReadyValid(m: Paging, data: array<seq<byte>>, d: nat)
    requires Ready(m, data, d)
    ensures m.Valid() && m.pmm.Free() !! Held(m.ram[..], d, 0, HI) && Space(m, d, 0, HI)
    ensures Shaped(m.ram[..], d, 0, HI) && NoEmptyTable(m.ram[..], d, 0, HI)
  {
    SpaceValid(m, d, 0, HI);
  }

  lemma PlanPrefix(s: Segment, done: seq<Item>, n: nat)
    ensures var plan := done + SegmentPlan(s, PageCount(s));
            && |plan| == |done| + PageCount(s)
            && (n == 0 ==> plan[..|done|] == done)
            && (n == PageCount(s) ==> plan[..|done| + n] == plan)
            && (n < PageCount(s) ==> plan[|done| + n] == Item(FirstPage(s) + n, s)
                                     && plan[..|done| + n + 1] == plan[..|done| + n] + [Item(FirstPage(s) + n, s)])
  {
  }

  /** The fail path of elf_load: the tracked pages are unmapped and freed from the last to the first. */
  method Rollback(m: Paging, data: array<seq<byte>>, d: nat, pages: seq<nat>, ghost image: seq<byte>,
                  ghost mem: Memory, ghost free: set<nat>, ghost heap: set<nat>, ghost done: seq<Item>)
    requires Ready(m, data, d) && Shaped(mem, d, 0, HI) && NoEmptyTable(mem, d, 0, HI) && free !! Held(mem, d, 0, HI)
    requires Loaded(mem, m.ram[..], free, m.pmm.Free(), heap, d, data[..], image, done) && Tracks(pages, done)
    requires Disjoint(done, Flat(mem, d, 0, HI))
    modifies m.pmm`freePages, m.pmm.bitmap.bytes, m.ram
    ensures Ready(m, data, d) && Flat(m.ram[..], d, 0, HI) == Flat(mem, d, 0, HI)
    ensures m.pmm.Free() + heap == free && m.pmm.Free() !! heap
  {
    hide Space, Shaped, NoEmptyTable, Flat, Pmm.Free, FramesKept, PagesLoaded, Held, Conserves, DropsTables,
      KeepsTables;
    var loaded := pages;
    assert done[..|done|] == done;
    ReadyValid(m, data, d);
    while loaded != []
      invariant |loaded| <= |pages| && loaded == pages[..|loaded|] && Ready(m, data, d) && m.pmm.bitmap.Valid()
      invariant Loaded(mem, m.ram[..], free, m.pmm.Free(), heap, d, data[..], image, done[..|loaded|])
      decreases |loaded|
    {
      var page := loaded[|loaded| - 1];
      loaded := loaded[..|loaded| - 1];
      TakeBack(m, data, d, page, image, mem, free, heap, done[..|loaded|], done[|loaded|]) by {
        assert done[..|loaded| + 1] == done[..|loaded|] + [done[|loaded|]];
        NextInPlan(done, Flat(mem, d, 0, HI), |loaded|);
      }
    }
    ReadyValid(m, data, d);
    AllTakenBack(mem, m.ram[..], free, m.pmm.Free(), heap, d, data[..], image);
  }

  method TakeBack(m: Paging, data: array<seq<byte>>, d: nat, page: nat, ghost image: seq<byte>, ghost mem: Memory,
                  ghost free: set<nat>, ghost heap: set<nat>, ghost done: seq<Item>, ghost item: Item)
    requires Ready(m, data, d) && Shaped(mem, d, 0, HI) && NoEmptyTable(mem, d, 0, HI)
    requires Loaded(mem, m.ram[..], free, m.pmm.Free(), heap, d, data[..], image, done + [item]) && page == item.page
    requires page < USER_PAGES && page !in Flat(mem, d, 0, HI) && page !in PagesIn(done)
    modifies m.pmm`freePages, m.pmm.bitmap.bytes, m.ram
    ensures Ready(m, data, d)
    ensures Loaded(mem, m.ram[..], free, m.pmm.Free(), heap, d, data[..], image, done)
  {
    hide Space, Shaped, NoEmptyTable, Flat, Pmm.Free, FramesKept, PagesLoaded, Held, Conserves, DropsTables,
      KeepsTables;
    SpaceValid(m, d, 0, HI);
    UserWindow(page);
    ghost var now, free1, flat0, flat := m.ram[..], m.pmm.Free(), Flat(mem, d, 0, HI), Flat(m.ram[..], d, 0, HI);
    ReleasePage(m, d, page * PAGE_SIZE, 0, HI);
    SpaceValid(m, d, 0, HI);
    PagesLoadedLess(flat0, flat, data[..], free, image, done, item);
    OldPagesStay(flat0, Flat(m.ram[..], d, 0, HI), data[..], free, image, done);
    UnmappedFrames(mem, now, m.ram[..], free, free1, m.pmm.Free(), heap, d);
  }

  /**
   * elf_load. On success the directory maps, besides what it mapped, exactly the pages of the image,
   * loaded as ElfPlan.PageLoaded says; on failure, wherever it occurs, the mappings are as before
   * and so are the free frames, but for those by which the heap grew. It fails only for a bad image or
   * when frames or the heap may run out.
   */
  method Load(m: Paging, data: array<seq<byte>>, d: nat, image: seq<byte>, calls: seq<HeapCall>)
    returns (ok: bool, entry: nat, ghost heap: set<nat>)
    requires Ready(m, data, d) && (Valid(image) ==> Loadable(image, Flat(m.ram[..], d, 0, HI)))
    modifies m.pmm, m.pmm.bitmap.bytes, m.ram, data
    ensures Ready(m, data, d) && m.pmm.Free() !! heap
    ensures ok ==> Valid(image) && SoundUpTo(image, HeaderCount(image)) && entry == EntryPoint(image)
                   && Loaded(old(m.ram[..]), m.ram[..], old(m.pmm.Free()), m.pmm.Free(), heap, d, data[..], image,
                             Plan(image, HeaderCount(image)))
    ensures !ok ==> Flat(m.ram[..], d, 0, HI) == Flat(old(m.ram[..]), d, 0, HI)
                    && m.pmm.Free() + heap == old(m.pmm.Free())
    ensures !ok ==> !Valid(image) || old(m.pmm.failAllocations) != 0 || Refused(image, calls, old(|m.pmm.Free()|))
  {
    hide Space, Shaped, NoEmptyTable, Flat, Pmm.Free, PagesLoaded, Held, Conserves, KeepsTables, Plan, SoundUpTo,
      Sound, SegmentPlan, Disjoint, Loadable, Suffices, Refused;
    entry, heap := 0, {};
    ReadyValid(m, data, d);
    ghost var mem, free := m.ram[..], m.pmm.Free();
    assert free + {} == free;
    var valid := Validate(image);
    if !valid { return false, 0, {}; }
    NothingLoaded(mem, free, data[..], image, d);
    var loaded: seq<nat> := [];
    ghost var done: seq<Item> := [];
    PlanStarts(image);
    var i := 0;
    ok := true;
    while i < HeaderCount(image) && ok
      invariant i <= HeaderCount(image) && Ready(m, data, d) && m.pmm.bitmap.Valid() && Tracks(loaded, done)
      invariant Loaded(mem, m.ram[..], free, m.pmm.Free(), heap, d, data[..], image, done)
      invariant ok ==> m.pmm.Free() <= free && SoundUpTo(image, i) && done == Plan(image, i)
      invariant Disjoint(done, Flat(mem, d, 0, HI))
      invariant ok ==> |m.pmm.Free()| + Need(calls, |done|) >= |free|
      invariant old(m.pmm.failAllocations) == 0 ==> m.pmm.failAllocations == 0
      invariant !ok ==> old(m.pmm.failAllocations) != 0 || Refused(image, calls, |free|)
      decreases HeaderCount(image) - i, ok
    {
      var s := SegmentAt(image, i);
      PlanMore(image, i);
      if s.kind != PT_LOAD {
        SoundMore(image, i);
        assert done + [] == done;
        i := i + 1;
      } else if s.memsz < s.filesz || s.offset > |image| || s.filesz > |image| - s.offset
                || (s.vaddr + s.memsz) % UINT32 < s.vaddr {
        ok := false;
        SoundMeans(s, |image|);
        UnsoundRefused(image, calls, |free|, i);
      } else {
        SoundMeans(s, |image|);
        SoundMore(image, i);
        LoadableMeans(image, Flat(mem, d, 0, HI), i + 1);
        ok, loaded, heap, done := LoadSegment(m, data, d, image, s, calls, loaded, mem, free, heap, done);
        DisjointPrefix(Plan(image, i + 1), done, Flat(mem, d, 0, HI));
        if !ok && old(m.pmm.failAllocations) == 0 { StarvedRefused(image, calls, |free|, i + 1); }
        if ok { i := i + 1; }
      }
    }
    if ok {
      KeptApart(mem, m.ram[..], free, m.pmm.Free(), heap, d);
      return true, EntryPoint(image), heap;
    }
    Rollback(m, data, d, loaded, image, mem, free, heap, done);
  }

  /** The image is bad, or the frames or the heap may not do for it. */
  ghost predicate Refused(image: seq<byte>, calls: seq<HeapCall>, free: nat)
    requires Valid(image)
  {
    !SoundUpTo(image, HeaderCount(image)) || !Suffices(calls, |Plan(image, HeaderCount(image))|, free)
  }

  lemma UnsoundRefused(image: seq<byte>, calls: seq<HeapCall>, free: nat, i: nat)
    requires Valid(image) && i < HeaderCount(image)
    requires SegmentAt(image, i).kind == PT_LOAD && !Sound(SegmentAt(image, i), |image|)
    ensures Refused(image, calls, free)
  {
  }

  lemma StarvedRefused(image: seq<byte>, calls: seq<HeapCall>, free: nat, i: nat)
    requires Valid(image) && i <= HeaderCount(image) && !Suffices(calls, |Plan(image, i)|, free)
    ensures Refused(image, calls, free)
  {
    hide Suffices, Plan;
    PlanGrows(image, i, HeaderCount(image));
    if Suffices(calls, |Plan(image, HeaderCount(image))|, free) {
      SufficesFewer(calls, |Plan(image, i)|, |Plan(image, HeaderCount(image))|, free);
    }
  }

  lemma {:induction false} PlanGrows(image: seq<byte>, i: nat, n: nat)
    requires Valid(image) && i <= n <= HeaderCount(image)
    ensures |Plan(image, i)| <= |Plan(image, n)|
  {
    if i < n {
      PlanGrows(image, i, n - 1);
      PlanMore(image, n - 1);
    }
  }

  lemma PlanStarts(image: seq<byte>)
    requires Valid(image)
    ensures Plan(image, 0) == [] && SoundUpTo(image, 0)
    ensures forall flat :: Disjoint([], flat)
  {
  }

  lemma SoundMeans(s: Segment, size: nat)
    ensures Sound(s, size) <==> !(s.memsz < s.filesz || s.offset > size || s.filesz > size - s.offset
                                  || (s.vaddr + s.memsz) % UINT32 < s.vaddr)
  {
  }

  lemma LoadableMeans(image: seq<byte>, flat: map<nat, Mapping>, i: nat)
    requires Valid(image) && Loadable(image, flat) && i <= HeaderCount(image) && SoundUpTo(image, i)
    ensures Disjoint(Plan(image, i), flat)
  {
  }

  lemma DisjointPrefix(plan: seq<Item>, done: seq<Item>, flat: map<nat, Mapping>)
    requires Disjoint(plan, flat) && done <= plan
    ensures Disjoint(done, flat)
  {
  }

  lemma KeptApart(mem: Memory, now: Memory, free: set<nat>, freeNow: set<nat>, heap: set<nat>, d: nat)
    requires FramesKept(mem, now, free, freeNow, heap, d)
    ensures freeNow !! heap
  {
  }
}
