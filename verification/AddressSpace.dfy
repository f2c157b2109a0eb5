/**
 * An address space whose pages are backed by frames of its own: what mapping a frame and releasing
 * a page do to the frames it holds and to the free ones. The allocators and the loader build on it.
 */
module AddressSpace {
  import opened Bitmap
  import opened Pmm
  import opened PageTables
  import opened Paging

  /** Every frame that belongs to the address space: directory, tables and pages. */
  function Held(mem: Memory, d: nat, lo: nat, hi: nat): set<nat> {
    Frames(mem, d, lo, hi) + FlatFrames(Flat(mem, d, lo, hi))
  }

  /** Well formed, and each mapped frame is in use by one page of this address space only. */
  ghost predicate Space(m: Paging, d: nat, lo: nat, hi: nat)
    reads m.ram, m.pmm, m.pmm.bitmap.bytes
  {
    && m.Valid() && m.Wf(d, lo, hi) && PrivateLeaves(m.ram[..], d, lo, hi)
    && m.Owned(FlatFrames(Flat(m.ram[..], d, lo, hi)))
    && forall f | f in FlatFrames(Flat(m.ram[..], d, lo, hi)) :: f < m.pmm.totalPages
  }

  /** Directory entries that were present are still what they were. */
  ghost predicate KeepsTables(mem: Memory, mem': Memory, d: nat) {
    forall k | Present(mem, d, k) :: Entry(mem', d, k) == Entry(mem, d, k)
  }

  /** Frames move between the free ones and the address space, and are neither lost nor made. */
  ghost predicate Conserves(mem: Memory, mem': Memory, free: set<nat>, free': set<nat>, d: nat, lo: nat, hi: nat) {
    free' + Held(mem', d, lo, hi) == free + Held(mem, d, lo, hi)
  }

  // ----- the frames held are determined by the mappings -----

  lemma TableIffMapped(mem: Memory, mem': Memory, d: nat, i: nat, lo: nat, hi: nat)
    requires Shaped(mem, d, lo, hi) && NoEmptyTable(mem, d, lo, hi) && lo <= i < hi && Present(mem, d, i)
    requires Flat(mem, d, lo, hi).Keys <= Flat(mem', d, lo, hi).Keys
    ensures Present(mem', d, i)
  {
    OccupiedMeansMapped(mem, d, i, lo, hi);
    var p :| p in Flat(mem, d, lo, hi) && p / ENTRIES == i;
    assert p in Flat(mem', d, lo, hi).Keys;
  }

  /** With the same mappings and the old tables in place, the address space holds the same frames. */
  lemma SameMappingsSameFrames(mem: Memory, mem': Memory, d: nat, lo: nat, hi: nat)
    requires Shaped(mem, d, lo, hi) && NoEmptyTable(mem, d, lo, hi) && Shaped(mem', d, lo, hi)
             && NoEmptyTable(mem', d, lo, hi)
    requires Flat(mem', d, lo, hi) == Flat(mem, d, lo, hi) && KeepsTables(mem, mem', d)
    ensures Tables(mem', d, lo, hi) == Tables(mem, d, lo, hi) && Held(mem', d, lo, hi) == Held(mem, d, lo, hi)
  {
    hide Flat, Entry, Shaped, NoEmptyTable, Present;
    forall i | lo <= i < hi
      ensures Present(mem', d, i) == Present(mem, d, i)
              && (Present(mem, d, i) ==> Table(mem', d, i) == Table(mem, d, i))
    {
      if Present(mem, d, i) { TableIffMapped(mem, mem', d, i, lo, hi); }
      if Present(mem', d, i) { TableIffMapped(mem', mem, d, i, lo, hi); }
    }
    assert forall t :: t in Tables(mem', d, lo, hi) <==> t in Tables(mem, d, lo, hi);
  }

  /** A rollback that ends with the mappings it started from ends with the free frames as well. */
  lemma RolledBack(mem: Memory, mem': Memory, free: set<nat>, free': set<nat>, d: nat, lo: nat, hi: nat)
    requires Shaped(mem, d, lo, hi) && NoEmptyTable(mem, d, lo, hi) && Shaped(mem', d, lo, hi)
             && NoEmptyTable(mem', d, lo, hi)
    requires Flat(mem', d, lo, hi) == Flat(mem, d, lo, hi) && KeepsTables(mem, mem', d)
    requires Conserves(mem, mem', free, free', d, lo, hi)
    requires free !! Held(mem, d, lo, hi) && free' !! Held(mem', d, lo, hi)
    ensures free' == free
  {
    SameMappingsSameFrames(mem, mem', d, lo, hi);
    SameComplement(free, free', Held(mem, d, lo, hi));
  }

  lemma SameComplement(a: set<nat>, b: set<nat>, h: set<nat>)
    requires a + h == b + h && a !! h && b !! h
    ensures a == b
  {
    assert forall x :: x in a + h <==> x in b + h;
  }

  lemma TakenKeeps(mem: Memory, mem': Memory, free: set<nat>, free': set<nat>, can: bool,
                   d: nat, i: nat, lo: nat, hi: nat)
    requires TableTaken(mem, mem', free, free', can, d, i, lo, hi)
    ensures KeepsTables(mem, mem', d)
  {
    hide Entry;
  }

  /** Directory entries are as before, except that tables of the window may be gone. */
  ghost predicate DropsTables(mem: Memory, mem': Memory, d: nat, lo: nat, hi: nat) {
    forall k: nat | Present(mem', d, k) || !(lo <= k < hi) :: Entry(mem', d, k) == Entry(mem, d, k)
  }

  lemma GivenDrops(mem: Memory, mem': Memory, free: set<nat>, free': set<nat>, d: nat, i: nat, lo: nat, hi: nat)
    requires TableGiven(mem, mem', free, free', d, i, lo, hi) && lo <= i < hi
    ensures DropsTables(mem, mem', d, lo, hi)
  {
    hide Entry, Untouched, Tables;
  }

  /** A table that held a page at the start, and still does, has not been dropped. */
  lemma StillKeeps(mem0: Memory, mem: Memory, mem': Memory, d: nat, lo: nat, hi: nat)
    requires KeepsTables(mem0, mem, d) && DropsTables(mem, mem', d, lo, hi)
    requires Shaped(mem0, d, lo, hi) && NoEmptyTable(mem0, d, lo, hi)
    requires Flat(mem0, d, lo, hi).Keys <= Flat(mem', d, lo, hi).Keys
    ensures KeepsTables(mem0, mem', d)
  {
    hide Entry, Flat, Shaped, NoEmptyTable, Present;
    forall k: nat | Present(mem0, d, k) ensures Entry(mem', d, k) == Entry(mem0, d, k) {
      if lo <= k < hi { TableIffMapped(mem0, mem', d, k, lo, hi); }
    }
  }

  // ----- mapping a frame, releasing a page -----

  lemma MappedFrames(flat: map<nat, Mapping>, p: nat, x: Mapping)
    requires p !in flat
    ensures FlatFrames(flat[p := x]) == FlatFrames(flat) + {x.frame}
  {
    var flat' := flat[p := x];
    forall q | q in flat ensures flat[q].frame in FlatFrames(flat') {
      assert q in flat' && flat'[q] == flat[q];
    }
    assert p in flat' && flat'[p] == x;
  }

  lemma ReleasedFrames(flat: map<nat, Mapping>, p: nat)
    requires p in flat && forall q | q in flat && q != p :: flat[q].frame != flat[p].frame
    ensures FlatFrames(flat - {p}) == FlatFrames(flat) - {flat[p].frame}
  {
    forall q | q in flat && q != p ensures flat[q].frame in FlatFrames(flat - {p}) {
      assert q in flat - {p} && (flat - {p})[q] == flat[q];
    }
  }

  lemma PrivateExtended(flat: map<nat, Mapping>, frames: set<nat>, more: set<nat>, p: nat, x: Mapping)
    requires Private(flat, frames) && p !in flat
    requires x.frame !in frames + more && x.frame !in FlatFrames(flat) && more !! FlatFrames(flat)
    ensures Private(flat[p := x], frames + more)
  {
    assert forall q | q in flat :: flat[q].frame in FlatFrames(flat);
  }

  lemma MappedSets(free: set<nat>, taken: set<nat>, own: set<nat>, leaves: set<nat>, f: nat)
    requires taken <= free && free !! own + leaves && f !in free && f !in own + leaves
    ensures free - taken + (own + taken + (leaves + {f})) == free + {f} + (own + leaves)
    ensures free - taken !! own + taken + (leaves + {f})
  {
  }

  lemma TakenFrames(mem: Memory, mem': Memory, free: set<nat>, free': set<nat>, can: bool,
                    d: nat, i: nat, lo: nat, hi: nat)
    requires TableTaken(mem, mem', free, free', can, d, i, lo, hi)
    ensures free - (free - free') == free' && free - free' <= free
    ensures Frames(mem', d, lo, hi) == Frames(mem, d, lo, hi) + (free - free')
  {
    hide Entry, Present, Tables;
  }

  lemma MappingHeld(mem: Memory, mem': Memory, free: set<nat>, free': set<nat>, can: bool,
                    d: nat, lo: nat, hi: nat, page: nat, x: Mapping)
    requires TableTaken(mem, mem', free, free', can, d, page / ENTRIES, lo, hi) && PrivateLeaves(mem, d, lo, hi)
    requires page !in Flat(mem, d, lo, hi) && Flat(mem', d, lo, hi) == Flat(mem, d, lo, hi)[page := x]
    requires free !! Held(mem, d, lo, hi) && x.frame !in free && x.frame !in Held(mem, d, lo, hi)
    ensures PrivateLeaves(mem', d, lo, hi) && KeepsTables(mem, mem', d) && free' !! Held(mem', d, lo, hi)
    ensures FlatFrames(Flat(mem', d, lo, hi)) == FlatFrames(Flat(mem, d, lo, hi)) + {x.frame}
    ensures Conserves(mem, mem', free + {x.frame}, free', d, lo, hi)
  {
    hide Flat, TableTaken, Frames, Private, FlatFrames, KeepsTables;
    var flat, own, taken := Flat(mem, d, lo, hi), Frames(mem, d, lo, hi), free - free';
    TakenFrames(mem, mem', free, free', can, d, page / ENTRIES, lo, hi);
    TakenKeeps(mem, mem', free, free', can, d, page / ENTRIES, lo, hi);
    MappedFrames(flat, page, x);
    PrivateExtended(flat, own, taken, page, x);
    MappedSets(free, taken, own, FlatFrames(flat), x.frame);
  }

  /** A frame that the caller has allocated and that nothing refers to yet. */
  ghost predicate Fresh(m: Paging, d: nat, lo: nat, hi: nat, f: nat)
    reads m.ram, m.pmm, m.pmm.bitmap.bytes
  {
    && m.pmm.bitmap.Valid() && f < m.pmm.totalPages && f !in m.pmm.Free() && f !in m.pmm.reserved
    && f !in Held(m.ram[..], d, lo, hi)
  }

  /** paging_map of an allocated frame: mapped, or nothing changes because no table can be had. */
  method MapFrame(m: Paging, d: nat, virt: nat, f: nat, flags: nat, ghost lo: nat, ghost hi: nat)
    requires Space(m, d, lo, hi) && lo <= virt / PAGE_SIZE / ENTRIES < hi && Fresh(m, d, lo, hi, f)
    requires virt / PAGE_SIZE !in Flat(m.ram[..], d, lo, hi) && flags < PAGE_SIZE && IsPresent(flags)
    modifies m.pmm, m.pmm.bitmap.bytes, m.ram
    ensures Space(m, d, lo, hi) && KeepsTables(old(m.ram[..]), m.ram[..], d)
    ensures var page, mem := virt / PAGE_SIZE, old(m.ram[..]);
            if Present(mem, d, page / ENTRIES) || old(m.CanAlloc()) then
              && Flat(m.ram[..], d, lo, hi) == Flat(mem, d, lo, hi)[page := Mapping(f, flags)]
              && Conserves(mem, m.ram[..], old(m.pmm.Free()) + {f}, m.pmm.Free(), d, lo, hi)
            else m.ram[..] == mem && m.pmm.Free() == old(m.pmm.Free()) && Fresh(m, d, lo, hi, f)
    ensures TableTaken(old(m.ram[..]), m.ram[..], old(m.pmm.Free()), m.pmm.Free(), old(m.CanAlloc()),
                       d, virt / PAGE_SIZE / ENTRIES, lo, hi)
    ensures m.pmm.failAllocations ==
            FailAfter(old(m.ram[..]), d, virt / PAGE_SIZE / ENTRIES, old(m.pmm.failAllocations))
  {
    hide Flat, Entry, Shaped, NoEmptyTable, TableTaken, Pmm.Free, Present, PrivateLeaves, FlatFrames, Tables, Frames,
      KeepsTables, Conserves;
    assert f * PAGE_SIZE / PAGE_SIZE == f;
    ghost var mem, can := m.ram[..], m.CanAlloc();
    KeepsItself(mem, d);
    m.Map(d, virt, f * PAGE_SIZE, flags, lo, hi);
    if Present(mem, d, virt / PAGE_SIZE / ENTRIES) || can {
      MappingHeld(mem, m.ram[..], old(m.pmm.Free()), m.pmm.Free(), can, d, lo, hi, virt / PAGE_SIZE, Mapping(f, flags));
    }
  }

  lemma PrivateShrunk(flat: map<nat, Mapping>, frames: set<nat>, frames': set<nat>, p: nat)
    requires Private(flat, frames) && frames' <= frames
    ensures Private(flat - {p}, frames')
  {
  }

  lemma ReleasedSets(free: set<nat>, given: set<nat>, own: set<nat>, leaves: set<nat>, f: nat)
    requires given <= own && free !! own + leaves && f in leaves && own !! leaves
    ensures free + given + {f} + ((own - given) + (leaves - {f})) == free + (own + leaves)
    ensures free + given + {f} !! (own - given) + (leaves - {f}) && f !in free + given
  {
  }

  lemma GivenFrames(mem: Memory, mem': Memory, free: set<nat>, free': set<nat>, d: nat, i: nat, lo: nat, hi: nat)
    requires TableGiven(mem, mem', free, free', d, i, lo, hi) && d !in Tables(mem, d, lo, hi)
    ensures var given := Tables(mem, d, lo, hi) - Tables(mem', d, lo, hi);
            && free' == free + given && given <= Frames(mem, d, lo, hi)
            && Frames(mem', d, lo, hi) == Frames(mem, d, lo, hi) - given
  {
    hide Entry, Untouched, Tables;
  }

  lemma LeavesApart(flat: map<nat, Mapping>, frames: set<nat>)
    requires Private(flat, frames)
    ensures frames !! FlatFrames(flat)
  {
  }

  lemma ReleasingHeld(mem: Memory, mem': Memory, free: set<nat>, free': set<nat>, d: nat, lo: nat, hi: nat, page: nat)
    requires TableGiven(mem, mem', free, free', d, page / ENTRIES, lo, hi) && Shaped(mem, d, lo, hi)
    requires PrivateLeaves(mem, d, lo, hi) && page in Flat(mem, d, lo, hi) && free !! Held(mem, d, lo, hi)
    requires Flat(mem', d, lo, hi) == Flat(mem, d, lo, hi) - {page}
    ensures var f := Flat(mem, d, lo, hi)[page].frame;
            && PrivateLeaves(mem', d, lo, hi)
            && f !in free' && free' + {f} !! Held(mem', d, lo, hi)
            && Held(mem', d, lo, hi) <= Held(mem, d, lo, hi)
            && FlatFrames(Flat(mem', d, lo, hi)) == FlatFrames(Flat(mem, d, lo, hi)) - {f}
            && Conserves(mem, mem', free, free' + {f}, d, lo, hi)
  {
    hide Flat, TableGiven, Frames, Private, FlatFrames, Shaped, Tables;
    var flat, own := Flat(mem, d, lo, hi), Frames(mem, d, lo, hi);
    var given := Tables(mem, d, lo, hi) - Tables(mem', d, lo, hi);
    DirectoryApart(mem, d, lo, hi);
    GivenFrames(mem, mem', free, free', d, page / ENTRIES, lo, hi);
    FrameOnce(flat, own, page);
    ReleasedFrames(flat, page);
    LeavesApart(flat, own);
    PrivateShrunk(flat, own, own - given, page);
    ReleasedSets(free, given, own, FlatFrames(flat), flat[page].frame);
  }

  lemma FrameOnce(flat: map<nat, Mapping>, frames: set<nat>, p: nat)
    requires Private(flat, frames) && p in flat
    ensures flat[p].frame in FlatFrames(flat)
    ensures forall q | q in flat && q != p :: flat[q].frame != flat[p].frame
  {
  }

  lemma GivenUntouched(mem: Memory, mem': Memory, free: set<nat>, free': set<nat>, d: nat, i: nat, lo: nat, hi: nat)
    requires TableGiven(mem, mem', free, free', d, i, lo, hi)
    ensures Untouched(mem, mem', Frames(mem, d, lo, hi))
  {
    hide Entry, Untouched, Tables;
  }

  /** Frame 0 is reserved, so a translation is 0 only where nothing is mapped. */
  lemma FramesAreUsed(m: Paging, d: nat, lo: nat, hi: nat)
    requires Space(m, d, lo, hi)
    ensures forall p | p in Flat(m.ram[..], d, lo, hi) ::
              var f := Flat(m.ram[..], d, lo, hi)[p].frame;
              f != 0 && f < m.pmm.totalPages && f !in m.pmm.Free() && f !in m.pmm.reserved
    ensures m.pmm.Free() !! Held(m.ram[..], d, lo, hi)
  {
    hide Flat, Entry, Shaped, NoEmptyTable, Pmm.Free, PrivateLeaves, Tables;
    var flat := Flat(m.ram[..], d, lo, hi);
    assert forall p | p in flat :: flat[p].frame in FlatFrames(flat);
  }

  lemma FrameOfAddress(f: nat, virt: nat)
    ensures (f * PAGE_SIZE + virt % PAGE_SIZE) / PAGE_SIZE == f
  {
  }

  /** paging_unmap of a mapped page: its frame is the caller's. */
  method UnmapMapped(m: Paging, d: nat, virt: nat, ghost f: nat, ghost lo: nat, ghost hi: nat)
    requires Space(m, d, lo, hi) && lo <= virt / PAGE_SIZE / ENTRIES < hi
    requires virt / PAGE_SIZE in Flat(m.ram[..], d, lo, hi) && f == Flat(m.ram[..], d, lo, hi)[virt / PAGE_SIZE].frame
    modifies m.pmm`freePages, m.pmm.bitmap.bytes, m.ram
    ensures Space(m, d, lo, hi) && Fresh(m, d, lo, hi, f)
    ensures Flat(m.ram[..], d, lo, hi) == Flat(old(m.ram[..]), d, lo, hi) - {virt / PAGE_SIZE}
    ensures Conserves(old(m.ram[..]), m.ram[..], old(m.pmm.Free()), m.pmm.Free() + {f}, d, lo, hi)
    ensures TableGiven(old(m.ram[..]), m.ram[..], old(m.pmm.Free()), m.pmm.Free(), d, virt / PAGE_SIZE / ENTRIES,
                       lo, hi)
    ensures DropsTables(old(m.ram[..]), m.ram[..], d, lo, hi)
  {
    hide Flat, Entry, Shaped, NoEmptyTable, TableGiven, Pmm.Free, Present, PrivateLeaves, FlatFrames, Tables, Frames,
      DropsTables;
    ghost var mem, free, page := m.ram[..], m.pmm.Free(), virt / PAGE_SIZE;
    FramesAreUsed(m, d, lo, hi);
    m.Unmap(d, virt, lo, hi);
    ReleasingHeld(mem, m.ram[..], free, m.pmm.Free(), d, lo, hi, page);
    GivenDrops(mem, m.ram[..], free, m.pmm.Free(), d, page / ENTRIES, lo, hi);
  }

  /** paging_unmap of a page that is not mapped does nothing. */
  method UnmapAbsent(m: Paging, d: nat, virt: nat, ghost lo: nat, ghost hi: nat)
    requires Space(m, d, lo, hi) && lo <= virt / PAGE_SIZE / ENTRIES < hi
    requires virt / PAGE_SIZE !in Flat(m.ram[..], d, lo, hi)
    modifies m.pmm`freePages, m.pmm.bitmap.bytes, m.ram
    ensures Space(m, d, lo, hi) && m.pmm.Free() == old(m.pmm.Free()) && KeepsTables(old(m.ram[..]), m.ram[..], d)
    ensures Flat(m.ram[..], d, lo, hi) == Flat(old(m.ram[..]), d, lo, hi)
    ensures Held(m.ram[..], d, lo, hi) == Held(old(m.ram[..]), d, lo, hi)
  {
    hide Flat, Entry, Shaped, NoEmptyTable, TableGiven, Pmm.Free, Present, PrivateLeaves, FlatFrames, Tables, Frames,
      DropsTables, KeepsTables, Held;
    ghost var mem, free, i := m.ram[..], m.pmm.Free(), virt / PAGE_SIZE / ENTRIES;
    m.Unmap(d, virt, lo, hi);
    NothingLeft(mem, d, virt / PAGE_SIZE, lo, hi);
    GivenDrops(mem, m.ram[..], free, m.pmm.Free(), d, i, lo, hi);
    KeepsItself(mem, d);
    StillKeeps(mem, mem, m.ram[..], d, lo, hi);
    SameMappingsSameFrames(mem, m.ram[..], d, lo, hi);
    NoneGiven(mem, m.ram[..], free, m.pmm.Free(), d, i, lo, hi);
    SamePrivate(mem, m.ram[..], d, lo, hi);
  }

  lemma NothingLeft(mem: Memory, d: nat, page: nat, lo: nat, hi: nat)
    requires page !in Flat(mem, d, lo, hi)
    ensures Flat(mem, d, lo, hi) - {page} == Flat(mem, d, lo, hi)
  {
  }

  lemma KeepsItself(mem: Memory, d: nat)
    ensures KeepsTables(mem, mem, d)
  {
  }

  lemma NoneGiven(mem: Memory, mem': Memory, free: set<nat>, free': set<nat>, d: nat, i: nat, lo: nat, hi: nat)
    requires TableGiven(mem, mem', free, free', d, i, lo, hi) && Tables(mem', d, lo, hi) == Tables(mem, d, lo, hi)
    ensures free' == free
  {
    hide Entry, Untouched, Tables;
  }

  lemma SamePrivate(mem: Memory, mem': Memory, d: nat, lo: nat, hi: nat)
    requires PrivateLeaves(mem, d, lo, hi) && Flat(mem', d, lo, hi) == Flat(mem, d, lo, hi)
    requires Tables(mem', d, lo, hi) == Tables(mem, d, lo, hi)
    ensures PrivateLeaves(mem', d, lo, hi)
  {
  }

  /** Translate, unmap, free: the page goes, and its frame and any table it leaves empty are free again. */
  method ReleasePage(m: Paging, d: nat, virt: nat, ghost lo: nat, ghost hi: nat)
    requires Space(m, d, lo, hi) && lo <= virt / PAGE_SIZE / ENTRIES < hi
    modifies m.pmm`freePages, m.pmm.bitmap.bytes, m.ram
    ensures Space(m, d, lo, hi) && DropsTables(old(m.ram[..]), m.ram[..], d, lo, hi)
    ensures Flat(m.ram[..], d, lo, hi) == Flat(old(m.ram[..]), d, lo, hi) - {virt / PAGE_SIZE}
    ensures Conserves(old(m.ram[..]), m.ram[..], old(m.pmm.Free()), m.pmm.Free(), d, lo, hi)
    ensures Untouched(old(m.ram[..]), m.ram[..], Frames(old(m.ram[..]), d, lo, hi))
  {
    hide Flat, Entry, Shaped, NoEmptyTable, TableGiven, Pmm.Free, Present, PrivateLeaves, FlatFrames, Tables, Frames,
      Conserves;
    ghost var mem, free, page := m.ram[..], m.pmm.Free(), virt / PAGE_SIZE;
    var phys := m.Translate(d, virt, lo, hi);
    FramesAreUsed(m, d, lo, hi);
    if phys == 0 {
      ConservesNothing(mem, free, d, lo, hi);
      return;
    }
    var f := phys / PAGE_SIZE;
    FrameOfAddress(Flat(mem, d, lo, hi)[page].frame, virt);
    UnmapMapped(m, d, virt, f, lo, hi);
    GivenUntouched(mem, m.ram[..], free, m.pmm.Free(), d, page / ENTRIES, lo, hi);
    m.FreeFrame(f);
  }

  lemma ConservesNothing(mem: Memory, free: set<nat>, d: nat, lo: nat, hi: nat)
    ensures Conserves(mem, mem, free, free, d, lo, hi)
  {
  }

  lemma SpaceValid(m: Paging, d: nat, lo: nat, hi: nat)
    requires Space(m, d, lo, hi)
    ensures m.Valid() && m.Wf(d, lo, hi) && m.pmm.Free() !! Held(m.ram[..], d, lo, hi)
    ensures Shaped(m.ram[..], d, lo, hi) && NoEmptyTable(m.ram[..], d, lo, hi)
  {
    FramesAreUsed(m, d, lo, hi);
  }

  /** pmm_alloc_page: a frame that is nobody's, or 0. */
  method TakeFrame(m: Paging, ghost d: nat, ghost lo: nat, ghost hi: nat) returns (f: nat)
    requires Space(m, d, lo, hi)
    modifies m.pmm, m.pmm.bitmap.bytes
    ensures Space(m, d, lo, hi) && m.ram[..] == old(m.ram[..])
    ensures f == 0 <==> !old(m.CanAlloc())
    ensures old(m.pmm.failAllocations) == 0 ==> m.pmm.failAllocations == 0
    ensures f == 0 ==> m.pmm.Free() == old(m.pmm.Free())
    ensures f != 0 ==> f in old(m.pmm.Free()) && m.pmm.Free() == old(m.pmm.Free()) - {f} && Fresh(m, d, lo, hi, f)
  {
    hide Flat, Entry, Shaped, NoEmptyTable, Pmm.Free, Frames, Present, PrivateLeaves, FlatFrames;
    FramesAreUsed(m, d, lo, hi);
    var phys := m.pmm.AllocPage();
    f := phys / PAGE_SIZE;
  }

  lemma FreeAgain(free: set<nat>, f: nat)
    requires f in free
    ensures free - {f} + {f} == free
  {
  }

  /** pmm_free_page of a frame that nothing refers to. */
  method FreeFresh(m: Paging, ghost d: nat, f: nat, ghost lo: nat, ghost hi: nat)
    requires Space(m, d, lo, hi) && Fresh(m, d, lo, hi, f)
    modifies m.pmm`freePages, m.pmm.bitmap.bytes
    ensures Space(m, d, lo, hi) && m.pmm.Free() == old(m.pmm.Free()) + {f} && m.ram[..] == old(m.ram[..])
  {
    hide Flat, Entry, Shaped, NoEmptyTable, Pmm.Free, PrivateLeaves, FlatFrames, Frames;
    m.FreeFrame(f);
  }
}
