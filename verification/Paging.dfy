/**
 * kernel/mm/paging.c. The operations work in place on the words of physical memory; a run of them
 * is proved to be a run of updates and deletions on the flat map of PageTables.
 */
module Paging {
  import opened Bitmap
  import opened Pmm
  import opened PageTables

  const KERNEL_PDE_START: nat := 768
  const USER_PDE_COUNT: nat := 768

  /** flags & (PAGE_WRITABLE | PAGE_USER). */
  function TableFlags(flags: nat): nat {
    (flags / 2) % 4 * 2
  }

  /** The test hook counts down when a table is asked for. */
  function FailAfter(mem: Memory, d: nat, i: nat, fail: nat): nat {
    if Present(mem, d, i) || fail == 0 then fail else fail - 1
  }

  /** table_phys | PAGE_PRESENT | (flags & (PAGE_WRITABLE | PAGE_USER)). */
  function TableEntry(t: nat, flags: nat): nat {
    t * PAGE_SIZE + PAGE_PRESENT + TableFlags(flags)
  }

  /** A directory entry is present, and writable and for users exactly as the flags are; it has no other flag. */
  predicate Grants(entry: nat, flags: nat) {
    && entry % 2 == 1 && entry / 2 % 2 == flags / 2 % 2 && entry / 4 % 2 == flags / 4 % 2
    && entry % PAGE_SIZE < 8
  }

  lemma TableEntryDecodes(t: nat, flags: nat)
    ensures TableEntry(t, flags) / PAGE_SIZE == t && IsPresent(TableEntry(t, flags))
    ensures Grants(TableEntry(t, flags), flags)
  {
    var rest := TableFlags(flags) + PAGE_PRESENT;
    FlagBits(flags);
    LowBits(t, rest);
    hide TableFlags;
    assert TableEntry(t, flags) == t * PAGE_SIZE + rest;
  }

  lemma FlagBits(flags: nat)
    ensures var rest := TableFlags(flags) + PAGE_PRESENT;
            rest < 8 && rest % 2 == 1 && rest / 2 % 2 == flags / 2 % 2 && rest / 4 % 2 == flags / 4 % 2
  {
    var f := flags / 2 % 4;
    assert f % 2 == flags / 2 % 2 && f / 2 == flags / 4 % 2;
    assert f == 0 || f == 1 || f == 2 || f == 3;
  }

  lemma EvenPart(n: nat, r: nat)
    ensures (2 * n + r) % 2 == r % 2 && (4 * n + r) / 2 == 2 * n + r / 2 && (8 * n + r) / 4 == 2 * n + r / 4
  {
  }

  lemma LowBits(t: nat, rest: nat)
    requires rest < 8
    ensures var e := t * PAGE_SIZE + rest;
            && e / PAGE_SIZE == t && e % PAGE_SIZE == rest
            && e % 2 == rest % 2 && e / 2 % 2 == rest / 2 % 2 && e / 4 % 2 == rest / 4 % 2
  {
    EvenPart(2048 * t, rest);
    EvenPart(1024 * t, rest);
    EvenPart(1024 * t, rest / 2);
    EvenPart(512 * t, rest);
    EvenPart(512 * t, rest / 4);
  }

  /** A table entry written to a directory is what the directory then holds. */
  lemma EntryGranted(mem: Memory, d: nat, i: nat, t: nat, flags: nat)
    requires d < |mem| && i < |mem[d]|
    ensures Grants(Entry(Write(mem, d, i, TableEntry(t, flags)), d, i), flags)
  {
    hide TableEntry, Grants;
    TableEntryDecodes(t, flags);
  }

  /** Writing a word of a table leaves the words of the directory. */
  lemma OtherFrame(mem: Memory, t: nat, j: nat, v: nat, d: nat)
    requires t < |mem| && j < |mem[t]| && t != d
    ensures forall i :: Entry(Write(mem, t, j, v), d, i) == Entry(mem, d, i)
  {
  }

  lemma KeptEntry(mem: Memory, mem': Memory, free: set<nat>, free': set<nat>, can: bool,
                  d: nat, i: nat, lo: nat, hi: nat)
    requires TableTaken(mem, mem', free, free', can, d, i, lo, hi)
    ensures Present(mem, d, i) ==> Entry(mem', d, i) == Entry(mem, d, i)
  {
    hide Tables, Untouched, Entry;
  }

  /** (phys & PAGE_FRAME_MASK) | flags. */
  function PageEntry(phys: nat, flags: nat): nat {
    phys / PAGE_SIZE * PAGE_SIZE + flags
  }

  lemma PageEntryDecodes(phys: nat, flags: nat)
    requires flags < PAGE_SIZE
    ensures Decode(PageEntry(phys, flags)) == Mapping(phys / PAGE_SIZE, flags)
    ensures IsPresent(PageEntry(phys, flags)) <==> IsPresent(flags)
  {
  }

  lemma EntriesOfRow(mem: Memory, f: nat)
    requires f < |mem| && |mem[f]| == ENTRIES
    ensures forall k: nat :: Entry(mem, f, k) == if k < ENTRIES then mem[f][k] else 0
  {
  }

  lemma EmptyDirectory(mem: Memory, d: nat, hi: nat)
    requires Sized(mem) && d < |mem| && hi <= ENTRIES && forall i: nat | i < hi :: !Present(mem, d, i)
    ensures Shaped(mem, d, 0, hi) && NoEmptyTable(mem, d, 0, hi) && Flat(mem, d, 0, hi) == map[]
            && Tables(mem, d, 0, hi) == {}
  {
  }

  lemma UnionAssoc(a: set<nat>, b: set<nat>, c: set<nat>)
    ensures a + b + c == a + (b + c)
  {
  }

  lemma DirectoryApart(mem: Memory, d: nat, lo: nat, hi: nat)
    requires Shaped(mem, d, lo, hi)
    ensures d !in Tables(mem, d, lo, hi)
  {
  }

  lemma SizesAdd(a: set<nat>, b: set<nat>, c: set<nat>, e: set<nat>)
    requires a !! b && a !! c && a !! e && b !! c && b !! e && c !! e
    ensures |a + b + c + e| == |a| + |b| + |c| + |e|
  {
  }

  lemma NoLeaves(mem: Memory, d: nat, a: nat)
    ensures LeafFrames(mem, d, a, a) == {}
  {
  }

  lemma AllOccupied(mem: Memory, d: nat, i: nat, lo: nat, hi: nat)
    requires NoEmptyTableBut(mem, d, lo, hi, i) && Occupied(mem, Table(mem, d, i))
    ensures NoEmptyTable(mem, d, lo, hi)
  {
  }

  class Paging {
    const pmm: Pmm
    const ram: array<seq<nat>>
    var kernelDirectory: nat

    constructor (pmm: Pmm, ram: array<seq<nat>>, kernelDirectory: nat)
      ensures this.pmm == pmm && this.ram == ram && this.kernelDirectory == kernelDirectory
    {
      this.pmm, this.ram, this.kernelDirectory := pmm, ram, kernelDirectory;
    }

    ghost predicate Valid()
      reads ram, pmm, pmm.bitmap.bytes
    {
      && pmm.Valid() && (ram as object) != (pmm.bitmap.bytes as object)
      && ram.Length == pmm.totalPages && Sized(ram[..])
    }

    /** A frame in use that is not one of the reserved ones. */
    ghost predicate Owned(frames: set<nat>)
      reads pmm, pmm.bitmap.bytes
    {
      pmm.bitmap.Valid() && frames !! pmm.Free() && frames !! pmm.reserved
    }

    /** Directory d, seen through its entries lo to hi - 1, is well formed and its frames are in use. */
    ghost predicate Wf(d: nat, lo: nat, hi: nat)
      reads ram, pmm, pmm.bitmap.bytes
    {
      && Shaped(ram[..], d, lo, hi) && NoEmptyTable(ram[..], d, lo, hi)
      && Owned(Frames(ram[..], d, lo, hi))
    }

    /** A table can be allocated. */
    ghost predicate CanAlloc()
      requires pmm.bitmap.Valid()
      reads pmm, pmm.bitmap.bytes
    {
      pmm.failAllocations == 0 && pmm.Free() != {}
    }

    /** paging_alloc_table: a zeroed frame, or 0. */
    method AllocTable() returns (t: nat)
      requires Valid()
      modifies pmm, pmm.bitmap.bytes, ram
      ensures Valid()
      ensures pmm.failAllocations == if old(pmm.failAllocations) == 0 then 0 else old(pmm.failAllocations) - 1
      ensures t != 0 <==> old(CanAlloc())
      ensures t == 0 ==> pmm.Free() == old(pmm.Free()) && ram[..] == old(ram[..])
      ensures t != 0 ==>
                && t in old(pmm.Free()) && pmm.Free() == old(pmm.Free()) - {t} && Owned({t}) && t < ram.Length
                && ram[..] == old(ram[..])[t := Zeroed()]
    {
      var phys := pmm.AllocPage();
      if phys == 0 { return 0; }
      t := phys / PAGE_SIZE;
      ram[t] := Zeroed();
    }

    /** One word of physical memory. */
    method Store(f: nat, j: nat, v: nat)
      requires f < ram.Length && j < |ram[f]|
      modifies ram
      ensures ram[..] == Write(old(ram[..]), f, j, v)
    {
      ram[f] := ram[f][j := v];
      assert ram[..] == Write(old(ram[..]), f, j, v);
    }

    method NewTableFor(d: nat, i: nat, flags: nat, ghost lo: nat, ghost hi: nat) returns (t: nat)
      requires Valid() && Wf(d, lo, hi) && lo <= i < hi && !Present(ram[..], d, i)
      modifies pmm, pmm.bitmap.bytes, ram
      ensures Valid() && Shaped(ram[..], d, lo, hi) && Owned(Frames(ram[..], d, lo, hi))
      ensures t == 0 <==> !old(CanAlloc())
      ensures t == 0 ==> ram[..] == old(ram[..]) && pmm.Free() == old(pmm.Free())
      ensures t != 0 ==> Present(ram[..], d, i) && Table(ram[..], d, i) == t && NoEmptyTableBut(ram[..], d, lo, hi, i)
      ensures Flat(ram[..], d, lo, hi) == Flat(old(ram[..]), d, lo, hi)
      ensures TableTaken(old(ram[..]), ram[..], old(pmm.Free()), pmm.Free(), old(CanAlloc()), d, i, lo, hi)
      ensures t != 0 && !Present(old(ram[..]), d, i) ==> Grants(Entry(ram[..], d, i), flags)
      ensures pmm.failAllocations == FailAfter(old(ram[..]), d, i, old(pmm.failAllocations))
    {
      hide Flat, Entry, Occupied, Shaped, NoEmptyTable, NoEmptyTableBut, Write, TableTaken, TableEntry, Table, Zeroed,
        Pmm.Free, Grants;
      ghost var mem := ram[..];
      ShapedBounds(mem, d, lo, hi);
      t := AllocTable();
      if t == 0 {
        NothingTaken(mem, pmm.Free(), false, d, i, lo, hi);
        return;
      }
      TableEntryDecodes(t, flags);
      assert |ram[d]| == ENTRIES;
      Written(ram[..], d, i, TableEntry(t, flags));
      NewTable(mem, d, i, t, TableEntry(t, flags), lo, hi);
      OneTaken(mem, old(pmm.Free()), t, TableEntry(t, flags), d, i, lo, hi);
      EntryGranted(ram[..], d, i, t, flags);
      Store(d, i, TableEntry(t, flags));
    }

    /** The first half of paging_map: the table for directory index i, or 0 if there is none to be had. */
    method EnsureTable(d: nat, i: nat, flags: nat, ghost lo: nat, ghost hi: nat) returns (t: nat)
      requires Valid() && Wf(d, lo, hi) && lo <= i < hi
      modifies pmm, pmm.bitmap.bytes, ram
      ensures Valid() && Shaped(ram[..], d, lo, hi) && Owned(Frames(ram[..], d, lo, hi))
      ensures t == 0 <==> !Present(old(ram[..]), d, i) && !old(CanAlloc())
      ensures t == 0 ==> ram[..] == old(ram[..]) && pmm.Free() == old(pmm.Free())
      ensures t != 0 ==> Present(ram[..], d, i) && Table(ram[..], d, i) == t && NoEmptyTableBut(ram[..], d, lo, hi, i)
      ensures Flat(ram[..], d, lo, hi) == Flat(old(ram[..]), d, lo, hi)
      ensures TableTaken(old(ram[..]), ram[..], old(pmm.Free()), pmm.Free(), old(CanAlloc()), d, i, lo, hi)
      ensures t != 0 && !Present(old(ram[..]), d, i) ==> Grants(Entry(ram[..], d, i), flags)
      ensures pmm.failAllocations == FailAfter(old(ram[..]), d, i, old(pmm.failAllocations))
    {
      hide Flat, Entry, Occupied, Shaped, NoEmptyTable, NoEmptyTableBut, Write, TableTaken, TableEntry, Table, Zeroed,
        Pmm.Free, Grants;
      ShapedBounds(ram[..], d, lo, hi);
      WeakerThanNoEmptyTable(ram[..], d, lo, hi, i);
      if IsPresent(ram[d][i]) {
        t := ram[d][i] / PAGE_SIZE;
        NothingTaken(ram[..], pmm.Free(), CanAlloc(), d, i, lo, hi);
      } else {
        t := NewTableFor(d, i, flags, lo, hi);
      }
    }

    /**
     * paging_map is an update of the flat map, unless the page needs a table and none can be had:
     * then nothing changes. A new table is one frame taken from the free ones.
     */
    method Map(d: nat, virt: nat, phys: nat, flags: nat, ghost lo: nat, ghost hi: nat)
      requires Valid() && Wf(d, lo, hi) && lo <= virt / PAGE_SIZE / ENTRIES < hi
      requires flags < PAGE_SIZE && IsPresent(flags)
      modifies pmm, pmm.bitmap.bytes, ram
      ensures Valid() && Wf(d, lo, hi)
      ensures var page, mem := virt / PAGE_SIZE, old(ram[..]);
              Flat(ram[..], d, lo, hi) ==
              if Present(mem, d, page / ENTRIES) || old(CanAlloc()) then
                Flat(mem, d, lo, hi)[page := Mapping(phys / PAGE_SIZE, flags)]
              else Flat(mem, d, lo, hi)
      ensures !Present(old(ram[..]), d, virt / PAGE_SIZE / ENTRIES) && !old(CanAlloc()) ==>
                ram[..] == old(ram[..]) && pmm.Free() == old(pmm.Free())
      ensures TableTaken(old(ram[..]), ram[..], old(pmm.Free()), pmm.Free(), old(CanAlloc()),
                         d, virt / PAGE_SIZE / ENTRIES, lo, hi)
      ensures var i, mem := virt / PAGE_SIZE / ENTRIES, old(ram[..]);
              if Present(mem, d, i) then Entry(ram[..], d, i) == Entry(mem, d, i)
              else old(CanAlloc()) ==> Grants(Entry(ram[..], d, i), flags)
      ensures pmm.failAllocations == FailAfter(old(ram[..]), d, virt / PAGE_SIZE / ENTRIES, old(pmm.failAllocations))
    {
      hide Flat, Entry, Occupied, Shaped, NoEmptyTable, NoEmptyTableBut, Write, TableTaken, Table, PageEntry, Decode,
        Pmm.Free, Grants;
      var i := virt / PAGE_SIZE / ENTRIES;
      var j := virt / PAGE_SIZE % ENTRIES;
      var t := EnsureTable(d, i, flags, lo, hi);
      if t == 0 { return; }
      PageEntryDecodes(phys, flags);
      SplitPage(virt / PAGE_SIZE, i, j);
      ShapedBounds(ram[..], d, lo, hi);
      EntryMapped(ram[..], d, i, j, PageEntry(phys, flags), lo, hi);
      EntryWrittenTaken(old(ram[..]), ram[..], old(pmm.Free()), pmm.Free(), old(CanAlloc()), d, i, j,
                        PageEntry(phys, flags), lo, hi);
      Written(ram[..], t, j, PageEntry(phys, flags));
      NotOwnTable(ram[..], d, i, lo, hi);
      OtherFrame(ram[..], t, j, PageEntry(phys, flags), d);
      Store(t, j, PageEntry(phys, flags));
      KeptEntry(old(ram[..]), ram[..], old(pmm.Free()), pmm.Free(), old(CanAlloc()), d, i, lo, hi);
    }

    /** The scan of paging_unmap for an entry that keeps the table. */
    method IsOccupied(t: nat) returns (occupied: bool)
      requires Valid() && t < ram.Length
      ensures occupied <==> Occupied(ram[..], t)
    {
      assert |ram[..][t]| == ENTRIES;
      for i := 0 to ENTRIES
        invariant forall j | 0 <= j < i :: !Present(ram[..], t, j)
      {
        if IsPresent(ram[t][i]) {
          assert Present(ram[..], t, i);
          return true;
        }
      }
      return false;
    }

    /** paging_unmap once its table has lost its last entry. */
    method ReclaimTable(d: nat, i: nat, t: nat, ghost lo: nat, ghost hi: nat)
      requires Valid() && Shaped(ram[..], d, lo, hi) && NoEmptyTableBut(ram[..], d, lo, hi, i) && lo <= i < hi
      requires Owned(Frames(ram[..], d, lo, hi)) && Present(ram[..], d, i) && t == Table(ram[..], d, i)
      requires !Occupied(ram[..], t)
      modifies pmm`freePages, pmm.bitmap.bytes, ram
      ensures Valid() && Wf(d, lo, hi) && ram[..] == Write(old(ram[..]), d, i, 0)
      ensures Flat(ram[..], d, lo, hi) == Flat(old(ram[..]), d, lo, hi) && pmm.Free() == old(pmm.Free()) + {t}
    {
      hide Flat, Entry, Occupied, Shaped, NoEmptyTable, NoEmptyTableBut, Write, Table, Pmm.Free;
      ghost var mem := ram[..];
      NotOwnTable(mem, d, i, lo, hi);
      TableDropped(mem, d, i, lo, hi);
      ShapedBounds(mem, d, lo, hi);
      Written(mem, d, i, 0);
      assert t * PAGE_SIZE / PAGE_SIZE == t;
      pmm.FreePage(t * PAGE_SIZE);
      Store(d, i, 0);
    }

    method UnmapEntry(d: nat, i: nat, j: nat, ghost lo: nat, ghost hi: nat)
      requires Valid() && Wf(d, lo, hi) && lo <= i < hi && j < ENTRIES
      modifies pmm`freePages, pmm.bitmap.bytes, ram
      ensures Valid() && Wf(d, lo, hi)
      ensures Flat(ram[..], d, lo, hi) == Flat(old(ram[..]), d, lo, hi) - {i * ENTRIES + j}
      ensures TableGiven(old(ram[..]), ram[..], old(pmm.Free()), pmm.Free(), d, i, lo, hi)
    {
      hide Flat, Entry, Occupied, Shaped, NoEmptyTable, NoEmptyTableBut, Write, TableGiven, Table, Pmm.Free;
      ghost var mem := ram[..];
      ShapedBounds(mem, d, lo, hi);
      if !IsPresent(ram[d][i]) {
        SplitPage(i * ENTRIES + j, i, j);
        NoTableNotMapped(mem, d, i * ENTRIES + j, lo, hi);
        NothingGiven(mem, pmm.Free(), d, i, lo, hi);
        return;
      }
      var t := ram[d][i] / PAGE_SIZE;
      EntryUnmapped(mem, d, i, j, lo, hi);
      EntryClearedGiven(mem, pmm.Free(), d, i, j, lo, hi);
      Written(mem, t, j, 0);
      Store(t, j, 0);
      ghost var mem1 := ram[..];
      var occupied := IsOccupied(t);
      if occupied {
        AllOccupied(mem1, d, i, lo, hi);
      } else {
        TableDroppedGiven(mem, mem1, pmm.Free(), d, i, lo, hi);
        ReclaimTable(d, i, t, lo, hi);
      }
    }

    /** paging_unmap is a deletion from the flat map; a table that becomes empty goes back to the free frames. */
    method Unmap(d: nat, virt: nat, ghost lo: nat, ghost hi: nat)
      requires Valid() && Wf(d, lo, hi) && lo <= virt / PAGE_SIZE / ENTRIES < hi
      modifies pmm`freePages, pmm.bitmap.bytes, ram
      ensures Valid() && Wf(d, lo, hi)
      ensures Flat(ram[..], d, lo, hi) == Flat(old(ram[..]), d, lo, hi) - {virt / PAGE_SIZE}
      ensures TableGiven(old(ram[..]), ram[..], old(pmm.Free()), pmm.Free(), d, virt / PAGE_SIZE / ENTRIES, lo, hi)
    {
      hide Flat, Shaped, NoEmptyTable, TableGiven, Tables, Pmm.Free;
      SplitPage(virt / PAGE_SIZE, virt / PAGE_SIZE / ENTRIES, virt / PAGE_SIZE % ENTRIES);
      UnmapEntry(d, virt / PAGE_SIZE / ENTRIES, virt / PAGE_SIZE % ENTRIES, lo, hi);
    }

    /** paging_translate agrees with the flat map at every offset. */
    method Translate(d: nat, virt: nat, ghost lo: nat, ghost hi: nat) returns (phys: nat)
      requires Valid() && Wf(d, lo, hi) && lo <= virt / PAGE_SIZE / ENTRIES < hi
      ensures var flat, page := Flat(ram[..], d, lo, hi), virt / PAGE_SIZE;
              phys == if page in flat then flat[page].frame * PAGE_SIZE + virt % PAGE_SIZE else 0
    {
      ShapedBounds(ram[..], d, lo, hi);
      var i := virt / PAGE_SIZE / ENTRIES;
      if !IsPresent(ram[d][i]) { return 0; }
      var entry := ram[ram[d][i] / PAGE_SIZE][virt / PAGE_SIZE % ENTRIES];
      if !IsPresent(entry) { return 0; }
      phys := entry / PAGE_SIZE * PAGE_SIZE + virt % PAGE_SIZE;
    }

    /** paging_create_directory: user entries empty, kernel entries those of the kernel directory. */
    method CreateDirectory() returns (d: nat)
      requires Valid() && kernelDirectory < ram.Length && kernelDirectory !in pmm.Free()
      modifies pmm, pmm.bitmap.bytes, ram
      ensures Valid()
      ensures d != 0 <==> old(CanAlloc())
      ensures d == 0 ==> pmm.Free() == old(pmm.Free()) && ram[..] == old(ram[..])
      ensures d != 0 ==>
                && Wf(d, 0, USER_PDE_COUNT) && Flat(ram[..], d, 0, USER_PDE_COUNT) == map[]
                && Tables(ram[..], d, 0, USER_PDE_COUNT) == {}
                && d in old(pmm.Free()) && pmm.Free() == old(pmm.Free()) - {d}
                && Untouched(old(ram[..]), ram[..], {d})
                && forall i: nat | 768 <= i ::
                    Entry(ram[..], d, i) == Entry(old(ram[..]), kernelDirectory, i)
    {
      hide Entry, Shaped, NoEmptyTable, Flat, Tables;
      d := AllocTable();
      if d == 0 { return; }
      OnlyRow(old(ram[..]), d, Zeroed());
      EntriesOfRow(ram[..], d);
      CopyKernelMappings(d);
      assert forall i: nat | i < USER_PDE_COUNT :: !Present(ram[..], d, i);
      EmptyDirectory(ram[..], d, USER_PDE_COUNT);
    }

    method CopyKernelMappings(d: nat)
      requires Valid() && kernelDirectory < ram.Length && d < ram.Length && d != kernelDirectory
      modifies ram
      ensures Valid() && Untouched(old(ram[..]), ram[..], {d})
      ensures forall i: nat | i < 768 :: Entry(ram[..], d, i) == Entry(old(ram[..]), d, i)
      ensures forall i | 768 <= i :: Entry(ram[..], d, i) == Entry(old(ram[..]), kernelDirectory, i)
    {
      hide Entry;
      ghost var mem := ram[..];
      assert |mem[d]| == ENTRIES && |mem[kernelDirectory]| == ENTRIES;
      for i := KERNEL_PDE_START to ENTRIES
        invariant Valid() && Untouched(mem, ram[..], {d}) && |ram[d]| == ENTRIES
        invariant forall k | 0 <= k < ENTRIES ::
                    ram[d][k] == if KERNEL_PDE_START <= k < i then mem[kernelDirectory][k] else mem[d][k]
      {
        ram[d] := ram[d][i := ram[kernelDirectory][i]];
      }
      EntriesOfRow(ram[..], d);
      EntriesOfRow(mem, d);
      EntriesOfRow(mem, kernelDirectory);
    }

    /** A frame that pmm_free_page really frees. */
    ghost predicate Freeable(f: nat) {
      f < pmm.totalPages && f !in pmm.reserved
    }

    method FreeFrame(f: nat)
      requires pmm.Valid() && Freeable(f)
      modifies pmm`freePages, pmm.bitmap.bytes
      ensures pmm.Valid() && pmm.Free() == old(pmm.Free()) + {f}
    {
      assert f * PAGE_SIZE / PAGE_SIZE == f;
      pmm.FreePage(f * PAGE_SIZE);
    }

    /** One round of the inner loop of paging_destroy_directory. */
    method FreeEntry(t: nat, j: nat)
      requires Valid() && t < ram.Length && j < ENTRIES
      requires |ram[t]| == ENTRIES && (IsPresent(ram[t][j]) ==> Freeable(ram[t][j] / PAGE_SIZE))
      modifies pmm`freePages, pmm.bitmap.bytes, ram
      ensures Valid() && Untouched(old(ram[..]), ram[..], {t})
      ensures |ram[t]| == ENTRIES && forall k | 0 <= k < ENTRIES && k != j :: ram[t][k] == old(ram[t])[k]
      ensures pmm.Free() == old(pmm.Free()) + if IsPresent(old(ram[t])[j]) then {old(ram[t])[j] / PAGE_SIZE} else {}
    {
      var pte := ram[t][j];
      if !IsPresent(pte) { return; }
      FreeFrame(pte / PAGE_SIZE);
      ram[t] := ram[t][j := 0];
    }

    /** The body of the outer loop: the pages of one table are freed, then the table. */
    method FreeTable(d: nat, i: nat, t: nat, ghost mem: Memory)
      requires Valid() && |mem| == ram.Length && t < |mem| && Present(mem, d, i) && t == Table(mem, d, i)
      requires ram[t] == mem[t] && |mem[t]| == ENTRIES && Freeable(t)
      requires forall f | f in LeafFrames(mem, d, i * ENTRIES, (i + 1) * ENTRIES) :: Freeable(f)
      modifies pmm`freePages, pmm.bitmap.bytes, ram
      ensures Valid() && Untouched(old(ram[..]), ram[..], {t})
      ensures pmm.Free() == old(pmm.Free()) + LeafFrames(mem, d, i * ENTRIES, (i + 1) * ENTRIES) + {t}
    {
      hide LeafFrames, Table, Present, Entry, Mapped, Leaf, Pmm.Free;
      ghost var free := pmm.Free();
      NoLeaves(mem, d, i * ENTRIES);
      for j := 0 to ENTRIES
        invariant Valid() && Untouched(old(ram[..]), ram[..], {t}) && |ram[t]| == ENTRIES
        invariant forall k | j <= k < ENTRIES :: ram[t][k] == mem[t][k]
        invariant pmm.Free() == free + LeafFrames(mem, d, i * ENTRIES, i * ENTRIES + j)
      {
        TableWord(mem, d, i, j);
        ghost var entry: set<nat> := if IsPresent(mem[t][j]) then {mem[t][j] / PAGE_SIZE} else {};
        FreeEntry(t, j);
        UnionAssoc(free, LeafFrames(mem, d, i * ENTRIES, i * ENTRIES + j), entry);
      }
      assert i * ENTRIES + ENTRIES == (i + 1) * ENTRIES;
      FreeFrame(t);
    }

    /** One round of the outer loop of paging_destroy_directory, which found `mem` and `free`. */
    method DestroyStep(d: nat, i: nat, ghost mem: Memory, ghost free: set<nat>)
      requires Valid() && DestroyedBy(mem, ram[..], free, pmm.Free(), d, i) && i < USER_PDE_COUNT
      requires Shaped(mem, d, 0, USER_PDE_COUNT)
      requires forall f | f in LeafFrames(mem, d, 0, USER_PDE_COUNT * ENTRIES) :: Freeable(f)
      requires forall t | t in Tables(mem, d, 0, USER_PDE_COUNT) :: Freeable(t)
      modifies pmm`freePages, pmm.bitmap.bytes, ram
      ensures Valid() && DestroyedBy(mem, ram[..], free, pmm.Free(), d, i + 1)
    {
      hide Shaped, NoEmptyTable, LeafFrames, Tables, Table, Present, Entry, Mapped, Leaf, Pmm.Free, Write;
      ShapedBounds(mem, d, 0, USER_PDE_COUNT);
      ghost var now, free0 := ram[..], pmm.Free();
      if !IsPresent(ram[d][i]) {
        DestroyedNoTable(mem, ram[..], free, pmm.Free(), d, i);
        return;
      }
      var t := ram[d][i] / PAGE_SIZE;
      LaterTable(mem, d, i, USER_PDE_COUNT);
      FreeTable(d, i, t, mem);
      DestroyedOneTable(mem, now, ram[..], free, free0, pmm.Free(), d, i, t);
      Written(ram[..], d, i, 0);
      Store(d, i, 0);
    }

    /**
     * paging_destroy_directory gives back every mapped frame, every table and the directory, and
     * touches no other frame: not those of the shared kernel tables in particular.
     */
    method DestroyDirectory(d: nat)
      requires Valid() && Wf(d, 0, USER_PDE_COUNT)
      requires forall f | f in LeafFrames(ram[..], d, 0, USER_PDE_COUNT * ENTRIES) :: Freeable(f)
      modifies pmm`freePages, pmm.bitmap.bytes, ram
      ensures Valid() && Untouched(old(ram[..]), ram[..], Frames(old(ram[..]), d, 0, USER_PDE_COUNT))
      ensures var mem := old(ram[..]);
              pmm.Free() ==
              old(pmm.Free()) + LeafFrames(mem, d, 0, USER_PDE_COUNT * ENTRIES) + Tables(mem, d, 0, USER_PDE_COUNT)
              + {d}
    {
      hide Shaped, NoEmptyTable, LeafFrames, Tables, Table, Present, Entry, Mapped, Leaf, Pmm.Free, DestroyedBy,
        Untouched, Frames;
      ghost var mem, free := ram[..], pmm.Free();
      ShapedBounds(mem, d, 0, USER_PDE_COUNT);
      TablesFreeable(mem, d, USER_PDE_COUNT);
      DestroyedNothing(mem, free, d);
      for i := 0 to USER_PDE_COUNT
        invariant Valid() && DestroyedBy(mem, ram[..], free, pmm.Free(), d, i)
      {
        DestroyStep(d, i, mem, free);
      }
      DestroyedAll(mem, ram[..], free, pmm.Free(), d, USER_PDE_COUNT);
      FreeFrame(d);
    }

    lemma TablesFreeable(mem: Memory, d: nat, hi: nat)
      requires Shaped(mem, d, 0, hi) && |mem| == pmm.totalPages && Frames(mem, d, 0, hi) !! pmm.reserved
      ensures Freeable(d) && forall t | t in Tables(mem, d, 0, hi) :: Freeable(t)
    {
    }

    /**
     * Exactly once: when the mapped frames are private, the number of free pages grows by one for
     * each mapping, each table and the directory.
     */
    method DestroyPrivate(d: nat)
      requires Valid() && Wf(d, 0, USER_PDE_COUNT) && PrivateLeaves(ram[..], d, 0, USER_PDE_COUNT)
      requires forall f | f in LeafFrames(ram[..], d, 0, USER_PDE_COUNT * ENTRIES) :: Freeable(f) && f !in pmm.Free()
      modifies pmm`freePages, pmm.bitmap.bytes, ram
      ensures Valid()
      ensures pmm.freePages == old(pmm.freePages) + |old(Flat(ram[..], d, 0, USER_PDE_COUNT))|
                               + |old(Tables(ram[..], d, 0, USER_PDE_COUNT))| + 1
    {
      ghost var mem, free := ram[..], pmm.Free();
      hide Shaped, NoEmptyTable, Tables, Table, Present, Entry, Mapped, Leaf, Pmm.Free, LeafFrames, Flat;
      LeafFramesAreValues(mem, d, USER_PDE_COUNT);
      DistinctValues(Flat(mem, d, 0, USER_PDE_COUNT));
      DestroyDirectory(d);
      DirectoryApart(mem, d, 0, USER_PDE_COUNT);
      SizesAdd(free, LeafFrames(mem, d, 0, USER_PDE_COUNT * ENTRIES), Tables(mem, d, 0, USER_PDE_COUNT), {d});
    }
  }
}
