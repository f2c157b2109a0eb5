/**
 * Runs over an address space: any run of paging_map and paging_unmap is a run of updates and
 * deletions on a flat map, and a process's directory gives back every frame it ever took.
 */
module AddressSpaceLife {
  import opened Bitmap
  import opened Pmm
  import opened PageTables
  import opened Paging
  import opened AddressSpace

  // ----- any run of paging_map and paging_unmap -----

  datatype Op = MapPage(virt: nat, phys: nat, flags: nat) | UnmapPage(virt: nat)

  predicate OpInside(op: Op, lo: nat, hi: nat) {
    lo <= op.virt / PAGE_SIZE / ENTRIES < hi && (op.MapPage? ==> op.flags < PAGE_SIZE && IsPresent(op.flags))
  }

  /** The 4 MiB regions in which a page is mapped. */
  function Regions(flat: map<nat, Mapping>): set<nat> {
    set p | p in flat :: p / ENTRIES
  }

  /** One call on a flat map that has `capacity` frames for the tables of its regions. */
  function Replayed(flat: map<nat, Mapping>, capacity: nat, op: Op): map<nat, Mapping> {
    var page := op.virt / PAGE_SIZE;
    match op
    case MapPage(_, phys, flags) =>
      if page / ENTRIES in Regions(flat) || |Regions(flat)| < capacity
      then flat[page := Mapping(phys / PAGE_SIZE, flags)]
      else flat
    case UnmapPage(_) => flat - {page}
  }

  function Replay(flat: map<nat, Mapping>, capacity: nat, ops: seq<Op>): map<nat, Mapping> {
    if ops == [] then flat
    else Replayed(Replay(flat, capacity, ops[..|ops| - 1]), capacity, ops[|ops| - 1])
  }

  /** Frames only move between the free ones and those of the directory; no other frame is written. */
  ghost predicate Confined(mem: Memory, mem': Memory, free: set<nat>, free': set<nat>, d: nat, lo: nat, hi: nat) {
    var pool := free' + Frames(mem', d, lo, hi) == free + Frames(mem, d, lo, hi);
    var rest := Untouched(mem, mem', free + Frames(mem, d, lo, hi));
    pool && rest
  }

  lemma ConfinedNothing(mem: Memory, free: set<nat>, d: nat, lo: nat, hi: nat)
    ensures Confined(mem, mem, free, free, d, lo, hi)
  {
  }

  lemma ConfinedMore(mem0: Memory, mem1: Memory, mem2: Memory, free0: set<nat>, free1: set<nat>, free2: set<nat>,
                     d: nat, lo: nat, hi: nat)
    requires Confined(mem0, mem1, free0, free1, d, lo, hi) && Confined(mem1, mem2, free1, free2, d, lo, hi)
    ensures Confined(mem0, mem2, free0, free2, d, lo, hi)
  {
    hide Frames;
  }

  lemma TakenIsConfined(mem: Memory, mem': Memory, free: set<nat>, free': set<nat>, can: bool,
                        d: nat, i: nat, lo: nat, hi: nat)
    requires TableTaken(mem, mem', free, free', can, d, i, lo, hi)
    ensures Confined(mem, mem', free, free', d, lo, hi)
  {
    hide TableTaken, Frames, Untouched;
    TakenFrames(mem, mem', free, free', can, d, i, lo, hi);
    TakenUntouched(mem, mem', free, free', can, d, i, lo, hi);
    UntouchedWider(mem, mem', Frames(mem, d, lo, hi) + (free - free'), free + Frames(mem, d, lo, hi));
    assert free' + (free - free') == free;
  }

  lemma TakenUntouched(mem: Memory, mem': Memory, free: set<nat>, free': set<nat>, can: bool,
                       d: nat, i: nat, lo: nat, hi: nat)
    requires TableTaken(mem, mem', free, free', can, d, i, lo, hi)
    ensures Untouched(mem, mem', Frames(mem, d, lo, hi) + (free - free')) && free' <= free
  {
    hide Tables, Entry, Present, Frames, Untouched;
  }

  lemma UntouchedWider(mem: Memory, mem': Memory, frames: set<nat>, more: set<nat>)
    requires Untouched(mem, mem', frames) && frames <= more
    ensures Untouched(mem, mem', more)
  {
  }

  lemma GivenIsConfined(mem: Memory, mem': Memory, free: set<nat>, free': set<nat>, d: nat, i: nat, lo: nat, hi: nat)
    requires TableGiven(mem, mem', free, free', d, i, lo, hi) && d !in Tables(mem, d, lo, hi)
    ensures Confined(mem, mem', free, free', d, lo, hi)
  {
    hide Tables, Entry, Present;
    GivenFrames(mem, mem', free, free', d, i, lo, hi);
  }

  /** Directory indexes with a table. */
  function Indexes(mem: Memory, d: nat, lo: nat, hi: nat): set<nat> {
    set i | lo <= i < hi && Present(mem, d, i)
  }

  lemma RegionsAreIndexes(mem: Memory, d: nat, lo: nat, hi: nat)
    requires Shaped(mem, d, lo, hi) && NoEmptyTable(mem, d, lo, hi)
    ensures Regions(Flat(mem, d, lo, hi)) == Indexes(mem, d, lo, hi)
  {
    hide Present, Leaf, Shaped, Entry;
    forall i | lo <= i < hi && Present(mem, d, i) ensures i in Regions(Flat(mem, d, lo, hi)) {
      OccupiedMeansMapped(mem, d, i, lo, hi);
      var p :| p in Flat(mem, d, lo, hi) && p / ENTRIES == i;
    }
  }

  lemma TablesUpTo(mem: Memory, d: nat, lo: nat, i: nat)
    requires lo <= i
    ensures Tables(mem, d, lo, i + 1) == Tables(mem, d, lo, i) + if Present(mem, d, i) then {Table(mem, d, i)} else {}
    ensures Indexes(mem, d, lo, i + 1) == Indexes(mem, d, lo, i) + if Present(mem, d, i) then {i} else {}
  {
    hide Present, Table;
  }

  lemma NewTableName(mem: Memory, d: nat, lo: nat, i: nat)
    requires Shaped(mem, d, lo, i + 1) && lo <= i
    ensures Shaped(mem, d, lo, i) && (Present(mem, d, i) ==> Table(mem, d, i) !in Tables(mem, d, lo, i))
  {
    hide Entry, Sized;
  }

  lemma {:induction false} OneTableEach(mem: Memory, d: nat, lo: nat, hi: nat)
    requires Shaped(mem, d, lo, hi) && lo <= hi
    ensures |Tables(mem, d, lo, hi)| == |Indexes(mem, d, lo, hi)|
  {
    hide Shaped, Present, Table;
    if lo < hi {
      var i := hi - 1;
      NewTableName(mem, d, lo, i);
      TablesUpTo(mem, d, lo, i);
      OneTableEach(mem, d, lo, i);
      hide Tables;
    }
  }

  /** Frames that can serve as tables: those that do and the free ones. */
  ghost function Capacity(mem: Memory, free: set<nat>, d: nat, lo: nat, hi: nat): nat {
    |free| + |Tables(mem, d, lo, hi)|
  }

  lemma CapacityKept(mem: Memory, mem': Memory, free: set<nat>, free': set<nat>, d: nat, lo: nat, hi: nat)
    requires Confined(mem, mem', free, free', d, lo, hi)
    requires free !! Frames(mem, d, lo, hi) && free' !! Frames(mem', d, lo, hi)
    requires d !in Tables(mem, d, lo, hi) && d !in Tables(mem', d, lo, hi)
    ensures Capacity(mem', free', d, lo, hi) == Capacity(mem, free, d, lo, hi)
  {
    hide Tables, Untouched;
    assert |free + Frames(mem, d, lo, hi)| == |free| + (1 + |Tables(mem, d, lo, hi)|);
    assert |free' + Frames(mem', d, lo, hi)| == |free'| + (1 + |Tables(mem', d, lo, hi)|);
  }

  lemma WfParts(m: Paging, d: nat, lo: nat, hi: nat)
    requires m.Valid() && m.Wf(d, lo, hi)
    ensures Shaped(m.ram[..], d, lo, hi) && NoEmptyTable(m.ram[..], d, lo, hi) && d !in Tables(m.ram[..], d, lo, hi)
    ensures m.pmm.Free() !! Frames(m.ram[..], d, lo, hi)
  {
    hide NoEmptyTable, Pmm.Free, Entry;
  }

  /** A table is there, or can be had, exactly when the flat map says so. */
  lemma TableToBeHad(mem: Memory, free: set<nat>, d: nat, i: nat, lo: nat, hi: nat)
    requires Shaped(mem, d, lo, hi) && NoEmptyTable(mem, d, lo, hi) && lo <= i < hi
    ensures var regions := Regions(Flat(mem, d, lo, hi));
            && (Present(mem, d, i) <==> i in regions)
            && (free != {} <==> |regions| < Capacity(mem, free, d, lo, hi))
  {
    hide Flat, Regions, Entry, Tables, Shaped, NoEmptyTable;
    RegionsAreIndexes(mem, d, lo, hi);
    OneTableEach(mem, d, lo, hi);
  }

  method RunOp(m: Paging, d: nat, op: Op, ghost lo: nat, ghost hi: nat)
    requires m.Valid() && m.Wf(d, lo, hi) && OpInside(op, lo, hi) && m.pmm.failAllocations == 0
    modifies m.pmm, m.pmm.bitmap.bytes, m.ram
    ensures m.Valid() && m.Wf(d, lo, hi) && m.pmm.failAllocations == 0
    ensures Flat(m.ram[..], d, lo, hi) ==
            Replayed(Flat(old(m.ram[..]), d, lo, hi), Capacity(old(m.ram[..]), old(m.pmm.Free()), d, lo, hi), op)
    ensures Confined(old(m.ram[..]), m.ram[..], old(m.pmm.Free()), m.pmm.Free(), d, lo, hi)
  {
    hide Flat, Entry, Shaped, NoEmptyTable, TableTaken, TableGiven, Pmm.Free, Present, Tables, Frames, Confined,
      Regions, Capacity;
    ghost var mem, free := m.ram[..], m.pmm.Free();
    var i := op.virt / PAGE_SIZE / ENTRIES;
    WfParts(m, d, lo, hi);
    TableToBeHad(mem, free, d, i, lo, hi);
    match op {
      case MapPage(virt, phys, flags) =>
        ghost var can := m.CanAlloc();
        m.Map(d, virt, phys, flags, lo, hi);
        TakenIsConfined(mem, m.ram[..], free, m.pmm.Free(), can, d, i, lo, hi);
      case UnmapPage(virt) =>
        m.Unmap(d, virt, lo, hi);
        GivenIsConfined(mem, m.ram[..], free, m.pmm.Free(), d, i, lo, hi);
    }
  }

  /**
   * Page tables refine a flat map over whole runs, and (Wf) directory entries keep naming distinct
   * tables, each with a present entry. The tables show through in one place: a page of a region
   * without mappings is not mapped when no frame is left for its table.
   */
  method RunOps(m: Paging, d: nat, ops: seq<Op>, ghost lo: nat, ghost hi: nat)
    requires m.Valid() && m.Wf(d, lo, hi) && m.pmm.failAllocations == 0 && forall op | op in ops :: OpInside(op, lo, hi)
    modifies m.pmm, m.pmm.bitmap.bytes, m.ram
    ensures m.Valid() && m.Wf(d, lo, hi)
    ensures Flat(m.ram[..], d, lo, hi) ==
            Replay(Flat(old(m.ram[..]), d, lo, hi), Capacity(old(m.ram[..]), old(m.pmm.Free()), d, lo, hi), ops)
    ensures Confined(old(m.ram[..]), m.ram[..], old(m.pmm.Free()), m.pmm.Free(), d, lo, hi)
  {
    hide Flat, Entry, Shaped, NoEmptyTable, Pmm.Free, Present, Tables, Frames, Confined, Replayed, Capacity;
    ghost var mem, free := m.ram[..], m.pmm.Free();
    ghost var capacity := Capacity(mem, free, d, lo, hi);
    ConfinedNothing(mem, free, d, lo, hi);
    for n := 0 to |ops|
      invariant m.Valid() && m.Wf(d, lo, hi) && m.pmm.failAllocations == 0
      invariant Flat(m.ram[..], d, lo, hi) == Replay(Flat(mem, d, lo, hi), capacity, ops[..n])
      invariant Confined(mem, m.ram[..], free, m.pmm.Free(), d, lo, hi)
      invariant Capacity(m.ram[..], m.pmm.Free(), d, lo, hi) == capacity
    {
      ghost var mem1, free1 := m.ram[..], m.pmm.Free();
      WfParts(m, d, lo, hi);
      RunOp(m, d, ops[n], lo, hi);
      WfParts(m, d, lo, hi);
      assert ops[..n + 1][..n] == ops[..n];
      ConfinedMore(mem, mem1, m.ram[..], free, free1, m.pmm.Free(), d, lo, hi);
      CapacityKept(mem1, m.ram[..], free1, m.pmm.Free(), d, lo, hi);
    }
    assert ops[..|ops|] == ops;
  }

  // ----- an address space from creation to destruction -----

  datatype Step = MapNew(page: nat, flags: nat) | Release(page: nat)

  predicate StepInside(step: Step) {
    step.page / ENTRIES < USER_PDE_COUNT && (step.MapNew? ==> step.flags < PAGE_SIZE && IsPresent(step.flags))
  }

  /** The frames of the address space and the free ones are together what they were; no other frame is written. */
  ghost predicate Closed(mem: Memory, mem': Memory, free: set<nat>, free': set<nat>, d: nat, lo: nat, hi: nat) {
    var pool := Conserves(mem, mem', free, free', d, lo, hi);
    var rest := Untouched(mem, mem', free + Held(mem, d, lo, hi));
    pool && rest
  }

  lemma ClosedNothing(mem: Memory, free: set<nat>, d: nat, lo: nat, hi: nat)
    ensures Closed(mem, mem, free, free, d, lo, hi)
  {
  }

  lemma ClosedMore(mem0: Memory, mem1: Memory, mem2: Memory, free0: set<nat>, free1: set<nat>, free2: set<nat>,
                   d: nat, lo: nat, hi: nat)
    requires Closed(mem0, mem1, free0, free1, d, lo, hi) && Closed(mem1, mem2, free1, free2, d, lo, hi)
    ensures Closed(mem0, mem2, free0, free2, d, lo, hi)
  {
    hide Held;
  }

  lemma MappingIsClosed(mem: Memory, mem': Memory, free: set<nat>, f: nat, free': set<nat>, can: bool,
                        d: nat, i: nat, lo: nat, hi: nat)
    requires f in free && TableTaken(mem, mem', free - {f}, free', can, d, i, lo, hi)
    requires Conserves(mem, mem', free - {f} + {f}, free', d, lo, hi)
    ensures Closed(mem, mem', free, free', d, lo, hi)
  {
    hide TableTaken, Frames, Untouched, FlatFrames, Flat;
    TakenUntouched(mem, mem', free - {f}, free', can, d, i, lo, hi);
    UntouchedWider(mem, mem', Frames(mem, d, lo, hi) + (free - {f} - free'), free + Held(mem, d, lo, hi));
    FreeAgain(free, f);
  }

  lemma ReleaseIsClosed(mem: Memory, mem': Memory, free: set<nat>, free': set<nat>, d: nat, lo: nat, hi: nat)
    requires Conserves(mem, mem', free, free', d, lo, hi) && Untouched(mem, mem', Frames(mem, d, lo, hi))
    ensures Closed(mem, mem', free, free', d, lo, hi)
  {
    hide Frames, Untouched, FlatFrames, Flat;
    UntouchedWider(mem, mem', Frames(mem, d, lo, hi), free + Held(mem, d, lo, hi));
  }

  /** Map a frame from the allocator at a page, unless the page is mapped or no frame or table can be had. */
  method MapNewPage(m: Paging, d: nat, page: nat, flags: nat) returns (f: nat)
    requires Space(m, d, 0, USER_PDE_COUNT) && StepInside(MapNew(page, flags))
    modifies m.pmm, m.pmm.bitmap.bytes, m.ram
    ensures Space(m, d, 0, USER_PDE_COUNT)
    ensures f == 0 ==> m.ram[..] == old(m.ram[..]) && m.pmm.Free() == old(m.pmm.Free())
    ensures f != 0 ==> f in old(m.pmm.Free())
    ensures var flat := Flat(old(m.ram[..]), d, 0, USER_PDE_COUNT);
            && (page in flat ==> f == 0)
            && (f == 0 ==> page in flat || old(m.pmm.failAllocations) != 0 || old(|m.pmm.Free()|) < 2)
            && Flat(m.ram[..], d, 0, USER_PDE_COUNT) == if f == 0 then flat else flat[page := Mapping(f, flags)]
    ensures Closed(old(m.ram[..]), m.ram[..], old(m.pmm.Free()), m.pmm.Free(), d, 0, USER_PDE_COUNT)
  {
    hide Flat, Entry, Shaped, NoEmptyTable, Pmm.Free, Present, PrivateLeaves, FlatFrames, Tables, Frames, Closed,
      Conserves, Space, TableTaken;
    ghost var lo, hi := 0, USER_PDE_COUNT;
    SpaceValid(m, d, lo, hi);
    ghost var mem, free := m.ram[..], m.pmm.Free();
    var virt := page * PAGE_SIZE;
    assert virt / PAGE_SIZE == page;
    FramesAreUsed(m, d, lo, hi);
    ClosedNothing(mem, free, d, lo, hi);
    var phys := m.Translate(d, virt, lo, hi);
    if phys != 0 { return 0; }
    f := TakeFrame(m, d, lo, hi);
    if f == 0 { return; }
    SpaceValid(m, d, lo, hi);
    FreeAgain(free, f);
    ghost var can := m.CanAlloc();
    MapFrame(m, d, virt, f, flags, lo, hi);
    SpaceValid(m, d, lo, hi);
    phys := m.Translate(d, virt, lo, hi);
    if phys == 0 {
      FreeFresh(m, d, f, lo, hi);
      return 0;
    }
    MappingIsClosed(mem, m.ram[..], free, f, m.pmm.Free(), can, d, page / ENTRIES, lo, hi);
  }

  method RunStep(m: Paging, d: nat, step: Step)
    requires Space(m, d, 0, USER_PDE_COUNT) && StepInside(step)
    modifies m.pmm, m.pmm.bitmap.bytes, m.ram
    ensures Space(m, d, 0, USER_PDE_COUNT)
    ensures Closed(old(m.ram[..]), m.ram[..], old(m.pmm.Free()), m.pmm.Free(), d, 0, USER_PDE_COUNT)
  {
    hide Flat, Entry, Shaped, NoEmptyTable, Pmm.Free, Present, PrivateLeaves, FlatFrames, Tables, Frames, Closed,
      Conserves, Space, DropsTables, Untouched;
    match step {
      case MapNew(page, flags) =>
        var f := MapNewPage(m, d, page, flags);
      case Release(page) =>
        SpaceValid(m, d, 0, USER_PDE_COUNT);
        assert page * PAGE_SIZE / PAGE_SIZE == page;
        ReleasePage(m, d, page * PAGE_SIZE, 0, USER_PDE_COUNT);
        ReleaseIsClosed(old(m.ram[..]), m.ram[..], old(m.pmm.Free()), m.pmm.Free(), d, 0, USER_PDE_COUNT);
    }
  }

  lemma EmptySpace(m: Paging, d: nat)
    requires m.Valid() && m.Wf(d, 0, USER_PDE_COUNT) && Flat(m.ram[..], d, 0, USER_PDE_COUNT) == map[]
    requires Tables(m.ram[..], d, 0, USER_PDE_COUNT) == {}
    ensures Space(m, d, 0, USER_PDE_COUNT) && Held(m.ram[..], d, 0, USER_PDE_COUNT) == {d}
  {
    hide Entry, Shaped, NoEmptyTable, Pmm.Free, Present;
  }

  lemma LifeEnds(mem0: Memory, mem1: Memory, mem2: Memory, mem3: Memory,
                 free0: set<nat>, free2: set<nat>, free3: set<nat>, d: nat, lo: nat, hi: nat)
    requires d in free0 && Untouched(mem0, mem1, {d}) && Held(mem1, d, lo, hi) == {d}
    requires Closed(mem1, mem2, free0 - {d}, free2, d, lo, hi)
    requires Untouched(mem2, mem3, Frames(mem2, d, lo, hi))
    requires free3 == free2 + Held(mem2, d, lo, hi)
    ensures free3 == free0 && Untouched(mem0, mem3, free0)
  {
    hide Frames, FlatFrames, Flat, Untouched;
    FreeAgain(free0, d);
    UntouchedWider(mem0, mem1, {d}, free0);
    UntouchedWider(mem2, mem3, Frames(mem2, d, lo, hi), free0);
    UntouchedThrice(mem0, mem1, mem2, mem3, free0);
  }

  lemma UntouchedThrice(mem0: Memory, mem1: Memory, mem2: Memory, mem3: Memory, frames: set<nat>)
    requires Untouched(mem0, mem1, frames) && Untouched(mem1, mem2, frames) && Untouched(mem2, mem3, frames)
    ensures Untouched(mem0, mem3, frames)
  {
  }

  /**
   * Conservation over a whole life: whatever is mapped and released between the creation of a
   * directory and its destruction, the free frames are in the end those of the beginning, and frames
   * that were in use all along, the shared kernel tables among them, hold what they held.
   */
  method Lifetime(m: Paging, steps: seq<Step>)
    requires m.Valid() && m.kernelDirectory < m.ram.Length && m.kernelDirectory !in m.pmm.Free()
    requires forall step | step in steps :: StepInside(step)
    modifies m.pmm, m.pmm.bitmap.bytes, m.ram
    ensures m.Valid() && m.pmm.Free() == old(m.pmm.Free())
    ensures Untouched(old(m.ram[..]), m.ram[..], old(m.pmm.Free()))
  {
    hide Flat, Entry, Shaped, NoEmptyTable, Pmm.Free, Present, PrivateLeaves, FlatFrames, Tables, Frames, Closed,
      Conserves, Space, Untouched, LeafFrames, Held;
    ghost var mem0, free0 := m.ram[..], m.pmm.Free();
    var d := m.CreateDirectory();
    if d == 0 {
      UntouchedNothing(mem0, free0);
      return;
    }
    EmptySpace(m, d);
    ghost var mem1, free1 := m.ram[..], m.pmm.Free();
    ClosedNothing(mem1, free1, d, 0, USER_PDE_COUNT);
    for n := 0 to |steps|
      invariant Space(m, d, 0, USER_PDE_COUNT) && m.pmm.bitmap.Valid()
      invariant Closed(mem1, m.ram[..], free1, m.pmm.Free(), d, 0, USER_PDE_COUNT)
    {
      SpaceValid(m, d, 0, USER_PDE_COUNT);
      ghost var now, free := m.ram[..], m.pmm.Free();
      RunStep(m, d, steps[n]);
      SpaceValid(m, d, 0, USER_PDE_COUNT);
      ClosedMore(mem1, now, m.ram[..], free1, free, m.pmm.Free(), d, 0, USER_PDE_COUNT);
    }
    SpaceValid(m, d, 0, USER_PDE_COUNT);
    ghost var mem2, free2 := m.ram[..], m.pmm.Free();
    LeavesFreeable(m, d);
    LeafFramesAreValues(mem2, d, USER_PDE_COUNT);
    m.DestroyDirectory(d);
    AllHeld(mem2, d, 0, USER_PDE_COUNT, free2);
    LifeEnds(mem0, mem1, mem2, m.ram[..], free0, free2, m.pmm.Free(), d, 0, USER_PDE_COUNT);
  }

  lemma UntouchedNothing(mem: Memory, frames: set<nat>)
    ensures Untouched(mem, mem, frames)
  {
  }

  lemma LeavesFreeable(m: Paging, d: nat)
    requires Space(m, d, 0, USER_PDE_COUNT)
    ensures forall f | f in LeafFrames(m.ram[..], d, 0, USER_PDE_COUNT * ENTRIES) :: m.Freeable(f)
  {
    hide Flat, Entry, Shaped, NoEmptyTable, Pmm.Free, PrivateLeaves, LeafFrames;
    LeafFramesAreValues(m.ram[..], d, USER_PDE_COUNT);
    FramesAreUsed(m, d, 0, USER_PDE_COUNT);
  }

  lemma AllHeld(mem: Memory, d: nat, lo: nat, hi: nat, free: set<nat>)
    ensures free + FlatFrames(Flat(mem, d, lo, hi)) + Tables(mem, d, lo, hi) + {d} == free + Held(mem, d, lo, hi)
  {
    hide Flat, FlatFrames, Tables;
  }
}
