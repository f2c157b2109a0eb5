/** The pages that elf_load goes through, and what is true of memory after some of them. */
module ElfPlan {
  import opened Sequences
  import opened Bytes
  import opened Bitmap
  import opened Pmm
  import opened PageTables
  import opened Paging
  import opened AddressSpace
  import opened ElfImage

  const HI: nat := USER_PDE_COUNT

  /** A page to load for a segment. */
  datatype Item = Item(page: nat, seg: Segment)

  function PageCount(s: Segment): nat {
    if EndPage(s) > FirstPage(s) then EndPage(s) - FirstPage(s) else 0
  }

  function SegmentPlan(s: Segment, n: nat): (items: seq<Item>) {
    seq(n, k requires 0 <= k < n => Item(FirstPage(s) + k, s))
  }

  /** The pages of the first i program headers, in the order of the two loops. */
  function Plan(image: seq<byte>, i: nat): seq<Item>
    requires Valid(image) && i <= HeaderCount(image)
  {
    if i == 0 then []
    else
      var s := SegmentAt(image, i - 1);
      Plan(image, i - 1) + if s.kind == PT_LOAD then SegmentPlan(s, PageCount(s)) else []
  }

  /** The first i headers pass the checks. */
  ghost predicate SoundUpTo(image: seq<byte>, i: nat)
    requires Valid(image) && i <= HeaderCount(image)
  {
    forall k | 0 <= k < i && SegmentAt(image, k).kind == PT_LOAD :: Sound(SegmentAt(image, k), |image|)
  }

  /** Distinct user pages, none of them mapped yet. */
  ghost predicate Disjoint(plan: seq<Item>, flat: map<nat, Mapping>) {
    && (forall a | 0 <= a < |plan| :: plan[a].page < USER_PAGES && plan[a].page !in flat)
    && (forall a, b | 0 <= a < b < |plan| :: plan[a].page != plan[b].page)
  }

  /** What the callers of elf_load see to, for the headers before the first bad one. */
  ghost predicate Loadable(image: seq<byte>, flat: map<nat, Mapping>)
    requires Valid(image)
  {
    forall i {:trigger Plan(image, i)} | 0 <= i <= HeaderCount(image) && SoundUpTo(image, i) ::
      Disjoint(Plan(image, i), flat)
  }

  predicate Proper(item: Item, size: nat) {
    Sound(item.seg, size) && FirstPage(item.seg) <= item.page
  }

  function PagesIn(done: seq<Item>): set<nat> {
    set k | 0 <= k < |done| :: done[k].page
  }

  lemma PagesInMore(done: seq<Item>, item: Item)
    ensures PagesIn(done + [item]) == PagesIn(done) + {item.page}
  {
    forall k | 0 <= k < |done| ensures done[k].page in PagesIn(done + [item]) {
      assert (done + [item])[k] == done[k];
    }
    assert (done + [item])[|done|] == item;
  }

  type Contents = seq<seq<byte>>

  /** The k-th page loaded: a fresh frame, the flags of its segment, and its bytes. */
  ghost predicate PageLoaded(flat: map<nat, Mapping>, data: Contents, free: set<nat>, image: seq<byte>, item: Item) {
    && Proper(item, |image|) && item.page in flat
    && flat[item.page].flags == PageFlags(item.seg) && flat[item.page].frame in free
    && flat[item.page].frame < |data| && data[flat[item.page].frame] == PageBytes(image, item.seg, item.page)
  }

  /** The mappings: those of before, and the pages done. */
  ghost predicate PagesLoaded(flat0: map<nat, Mapping>, flat: map<nat, Mapping>, data: Contents, free: set<nat>,
                              image: seq<byte>, done: seq<Item>)
  {
    && flat.Keys == flat0.Keys + PagesIn(done) && (forall p | p in flat0 :: flat[p] == flat0[p])
    && (forall k | 0 <= k < |done| :: PageLoaded(flat, data, free, image, done[k]))
  }

  /**
   * The frames: tables that were there are, and none is lost. `heap` are frames that the kernel heap
   * took meanwhile.
   */
  ghost predicate FramesKept(mem: Memory, now: Memory, free: set<nat>, freeNow: set<nat>, heap: set<nat>, d: nat) {
    && KeepsTables(mem, now, d) && Conserves(mem, now, free, freeNow + heap, d, 0, HI)
    && freeNow !! heap && freeNow + heap !! Held(now, d, 0, HI)
  }

  // ----- steps -----

  lemma NothingLoaded(mem: Memory, free: set<nat>, data: Contents, image: seq<byte>, d: nat)
    requires free !! Held(mem, d, 0, HI)
    ensures FramesKept(mem, mem, free, free, {}, d)
    ensures PagesLoaded(Flat(mem, d, 0, HI), Flat(mem, d, 0, HI), data, free, image, [])
  {
    hide Held, Flat;
    assert free + {} == free;
    assert PagesIn([]) == {};
  }

  /** The heap takes a free frame. */
  lemma HeapTakes(mem: Memory, now: Memory, free: set<nat>, freeNow: set<nat>, heap: set<nat>, d: nat, f: nat)
    requires FramesKept(mem, now, free, freeNow, heap, d) && f in freeNow
    ensures FramesKept(mem, now, free, freeNow - {f}, heap + {f}, d)
  {
    hide Held;
    assert freeNow - {f} + (heap + {f}) == freeNow + heap;
  }

  /** Frames move within the address space and the free ones: the heap's are not concerned. */
  lemma FramesKeptMore(mem: Memory, mem1: Memory, mem2: Memory, free: set<nat>, free1: set<nat>, free2: set<nat>,
                       heap: set<nat>, d: nat)
    requires FramesKept(mem, mem1, free, free1, heap, d) && KeepsTables(mem, mem2, d)
    requires Conserves(mem1, mem2, free1, free2, d, 0, HI) && free2 !! Held(mem2, d, 0, HI)
    ensures FramesKept(mem, mem2, free, free2, heap, d)
  {
    hide Held, KeepsTables;
    var h1, h2 := Held(mem1, d, 0, HI), Held(mem2, d, 0, HI);
    assert free2 + heap + h2 == free1 + heap + h1;
    assert forall x | x in free2 + h2 :: x in free1 + h1;
  }

  lemma KeepsMore(mem: Memory, mem1: Memory, mem2: Memory, d: nat)
    requires KeepsTables(mem, mem1, d) && KeepsTables(mem1, mem2, d)
    ensures KeepsTables(mem, mem2, d)
  {
    hide Entry;
  }

  lemma PagesLoadedMore(flat0: map<nat, Mapping>, flat: map<nat, Mapping>, data: Contents, data': Contents,
                        free: set<nat>, image: seq<byte>, done: seq<Item>, item: Item, f: nat)
    requires PagesLoaded(flat0, flat, data, free, image, done) && item.page !in flat
    requires Proper(item, |image|) && f in free && f !in FlatFrames(flat) && f < |data| == |data'|
    requires data' == data[f := PageBytes(image, item.seg, item.page)]
    ensures PagesLoaded(flat0, flat[item.page := Mapping(f, PageFlags(item.seg))], data', free, image, done + [item])
  {
    hide PageBytes, Proper;
    var flat' := flat[item.page := Mapping(f, PageFlags(item.seg))];
    PagesInMore(done, item);
    assert forall p | p in flat :: flat[p].frame in FlatFrames(flat);
    forall k | 0 <= k < |done + [item]| ensures PageLoaded(flat', data', free, image, (done + [item])[k]) {
      if k < |done| {
        assert PageLoaded(flat, data, free, image, done[k]);
      }
    }
  }

  /** Taking back the last page. */
  lemma PagesLoadedLess(flat0: map<nat, Mapping>, flat: map<nat, Mapping>, data: Contents, free: set<nat>,
                        image: seq<byte>, done: seq<Item>, item: Item)
    requires PagesLoaded(flat0, flat, data, free, image, done + [item]) && item.page !in flat0
             && item.page !in PagesIn(done)
    ensures PagesLoaded(flat0, flat - {item.page}, data, free, image, done)
  {
    hide PageBytes, Proper;
    PagesInMore(done, item);
    forall k | 0 <= k < |done| ensures PageLoaded(flat - {item.page}, data, free, image, done[k]) {
      assert (done + [item])[k] == done[k] && done[k].page in PagesIn(done);
      assert PageLoaded(flat, data, free, image, (done + [item])[k]);
    }
  }

  /** Writing to a frame that is not mapped changes no page. */
  lemma PagesLoadedElsewhere(flat0: map<nat, Mapping>, flat: map<nat, Mapping>, data: Contents, data': Contents,
                             free: set<nat>, image: seq<byte>, done: seq<Item>, f: nat)
    requires PagesLoaded(flat0, flat, data, free, image, done) && f !in FlatFrames(flat) && |data'| == |data|
    requires forall g | 0 <= g < |data| && g != f :: data'[g] == data[g]
    ensures PagesLoaded(flat0, flat, data', free, image, done)
  {
    hide PageBytes, Proper;
    assert forall p | p in flat :: flat[p].frame in FlatFrames(flat);
    forall k | 0 <= k < |done| ensures PageLoaded(flat, data', free, image, done[k]) {
      assert PageLoaded(flat, data, free, image, done[k]);
    }
  }

  /** A frame taken and then freed again leaves the account as it was. */
  lemma FramesKeptSame(mem: Memory, now: Memory, now': Memory, free: set<nat>, freeNow: set<nat>, heap: set<nat>,
                       d: nat)
    requires FramesKept(mem, now, free, freeNow, heap, d) && KeepsTables(now, now', d)
    requires Held(now', d, 0, HI) == Held(now, d, 0, HI)
    ensures FramesKept(mem, now', free, freeNow, heap, d)
  {
    hide Held, Entry;
  }

  lemma UserWindow(page: nat)
    requires page < USER_PAGES
    ensures page * PAGE_SIZE / PAGE_SIZE == page && page / ENTRIES < HI
  {
  }

  /** Everything that the loading of `done` has come to, memory and frames. */
  ghost predicate Loaded(mem: Memory, now: Memory, free: set<nat>, freeNow: set<nat>, heap: set<nat>, d: nat,
                         data: Contents, image: seq<byte>, done: seq<Item>)
  {
    && FramesKept(mem, now, free, freeNow, heap, d)
    && PagesLoaded(Flat(mem, d, 0, HI), Flat(now, d, 0, HI), data, free, image, done)
  }

  lemma NewPageNotMapped(mem: Memory, now: Memory, free: set<nat>, freeNow: set<nat>, heap: set<nat>, d: nat,
                         data: Contents, image: seq<byte>, done: seq<Item>, item: Item)
    requires Loaded(mem, now, free, freeNow, heap, d, data, image, done)
    requires item.page !in Flat(mem, d, 0, HI) && item.page !in PagesIn(done)
    ensures item.page !in Flat(now, d, 0, HI)
  {
    hide Flat, FramesKept;
  }

  /** A page that was mapped and unmapped again has not changed the mappings. */
  lemma MappedAndUnmapped(flat: map<nat, Mapping>, page: nat, x: Mapping)
    requires page !in flat
    ensures flat[page := x] - {page} == flat
  {
  }

  /** The page just mapped is unmapped again and its frame freed. */
  lemma UnmappedFrames(mem: Memory, now: Memory, now': Memory, free: set<nat>, free1: set<nat>, free2: set<nat>,
                       heap: set<nat>, d: nat)
    requires FramesKept(mem, now, free, free1, heap, d) && DropsTables(now, now', d, 0, HI)
    requires Shaped(mem, d, 0, HI) && NoEmptyTable(mem, d, 0, HI)
    requires Flat(mem, d, 0, HI).Keys <= Flat(now', d, 0, HI).Keys
    requires Conserves(now, now', free1, free2, d, 0, HI) && free2 !! Held(now', d, 0, HI)
    ensures FramesKept(mem, now', free, free2, heap, d)
  {
    hide Held, Conserves, Shaped, NoEmptyTable, Flat, KeepsTables, DropsTables;
    StillKeeps(mem, now, now', d, 0, HI);
    FramesKeptMore(mem, now, now', free, free1, free2, heap, d);
  }

  lemma OldPagesStay(flat0: map<nat, Mapping>, flat: map<nat, Mapping>, data: Contents, free: set<nat>,
                     image: seq<byte>, done: seq<Item>)
    requires PagesLoaded(flat0, flat, data, free, image, done)
    ensures flat0.Keys <= flat.Keys
  {
  }

  lemma SegmentPlanMore(s: Segment, n: nat)
    ensures SegmentPlan(s, n + 1) == SegmentPlan(s, n) + [Item(FirstPage(s) + n, s)]
  {
  }

  /** The next page of a disjoint plan is a user page that is neither mapped nor done. */
  lemma NextInPlan(plan: seq<Item>, flat: map<nat, Mapping>, k: nat)
    requires Disjoint(plan, flat) && k < |plan|
    ensures plan[k].page < USER_PAGES && plan[k].page !in flat && plan[k].page !in PagesIn(plan[..k])
  {
  }

  lemma PlanMore(image: seq<byte>, i: nat)
    requires Valid(image) && i < HeaderCount(image)
    ensures Plan(image, i + 1) ==
            var s := SegmentAt(image, i);
            Plan(image, i) + if s.kind == PT_LOAD then SegmentPlan(s, PageCount(s)) else []
  {
  }

  lemma SoundMore(image: seq<byte>, i: nat)
    requires Valid(image) && i < HeaderCount(image) && SoundUpTo(image, i)
    requires SegmentAt(image, i).kind == PT_LOAD ==> Sound(SegmentAt(image, i), |image|)
    ensures SoundUpTo(image, i + 1)
  {
  }

  /** With every page taken back, mappings and free frames are as before, up to what the heap took. */
  lemma AllTakenBack(mem: Memory, now: Memory, free: set<nat>, freeNow: set<nat>, heap: set<nat>, d: nat,
                     data: Contents, image: seq<byte>)
    requires Loaded(mem, now, free, freeNow, heap, d, data, image, []) && free !! Held(mem, d, 0, HI)
    requires Shaped(mem, d, 0, HI) && NoEmptyTable(mem, d, 0, HI) && Shaped(now, d, 0, HI)
             && NoEmptyTable(now, d, 0, HI)
    ensures Flat(now, d, 0, HI) == Flat(mem, d, 0, HI) && freeNow + heap == free && freeNow !! heap
  {
    hide Flat, Held, Shaped, NoEmptyTable, Conserves, KeepsTables;
    assert PagesIn([]) == {};
    assert Flat(now, d, 0, HI).Keys == Flat(mem, d, 0, HI).Keys;
    RolledBack(mem, now, free, freeNow + heap, d, 0, HI);
  }

  // ----- what a successful load means -----

  lemma {:induction false} InPlan(image: seq<byte>, n: nat, i: nat, page: nat)
    requires Valid(image) && i < n <= HeaderCount(image) && SegmentAt(image, i).kind == PT_LOAD
    requires FirstPage(SegmentAt(image, i)) <= page < EndPage(SegmentAt(image, i))
    ensures Item(page, SegmentAt(image, i)) in Plan(image, n)
  {
    PlanMore(image, n - 1);
    if i == n - 1 {
      var s := SegmentAt(image, i);
      assert SegmentPlan(s, PageCount(s))[page - FirstPage(s)] == Item(page, s);
    } else {
      InPlan(image, n - 1, i, page);
    }
  }

  lemma {:induction false} FromPlan(image: seq<byte>, n: nat, item: Item)
    requires Valid(image) && n <= HeaderCount(image) && item in Plan(image, n)
    ensures exists i :: 0 <= i < n && SegmentAt(image, i).kind == PT_LOAD && item.seg == SegmentAt(image, i)
                        && FirstPage(item.seg) <= item.page < EndPage(item.seg)
  {
    PlanMore(image, n - 1);
    if item in Plan(image, n - 1) {
      FromPlan(image, n - 1, item);
    }
  }

  predicate InUserHalf(s: Segment) {
    s.vaddr + s.memsz <= USER_PAGES * PAGE_SIZE
  }

  /** Byte o of a page is byte `at` of the segment's file part, or 0 beyond it. */
  predicate ReadsAs(bytes: seq<byte>, o: nat, image: seq<byte>, s: Segment, at: nat) {
    && o < |bytes|
    && if at < s.filesz then s.offset + at < |image| && bytes[o] == image[s.offset + at] else bytes[o] == 0
  }

  /** Some address of the segment lies in the page. */
  ghost predicate Touches(s: Segment, page: nat) {
    exists v :: s.vaddr <= v < s.vaddr + s.memsz && v / PAGE_SIZE == page
  }

  /** An empty segment that starts inside a page gets that page all the same. */
  predicate EmptyInside(s: Segment, page: nat) {
    s.memsz == 0 && s.vaddr % PAGE_SIZE != 0 && page == s.vaddr / PAGE_SIZE
  }

  /** A segment below 0xC0000000 gets the pages that it touches and, but for an empty one, no others. */
  lemma PagesOfSegment(s: Segment, page: nat)
    requires InUserHalf(s)
    ensures FirstPage(s) <= page < EndPage(s) <==> Touches(s, page) || EmptyInside(s, page)
  {
    var v := if page == s.vaddr / PAGE_SIZE then s.vaddr else page * PAGE_SIZE;
    if FirstPage(s) <= page < EndPage(s) && s.memsz > 0 {
      assert v / PAGE_SIZE == page;
      assert s.vaddr <= v < s.vaddr + s.memsz;
    }
  }

  /** Wherever a sound segment lies, no page is loaded for it that it does not touch. */
  lemma NoOtherPages(s: Segment, size: nat, page: nat)
    requires Sound(s, size) && s.vaddr < UINT32 && s.memsz < UINT32 && FirstPage(s) <= page < EndPage(s)
    ensures Touches(s, page) || EmptyInside(s, page)
  {
    var v := if page == s.vaddr / PAGE_SIZE then s.vaddr else page * PAGE_SIZE;
    if s.memsz > 0 {
      assert v / PAGE_SIZE == page;
      assert s.vaddr <= v < s.vaddr + s.memsz;
    }
  }

  /**
   * The image: each address of a segment with aligned p_vaddr is in a user page, writable if and only
   * if PF_W is set, of a frame that was free, and reads the byte of the file that belongs there, or 0
   * beyond the file part, up to the end of the last page.
   */
  lemma LoadedImage(flat0: map<nat, Mapping>, flat: map<nat, Mapping>, data: Contents, free: set<nat>, image: seq<byte>,
                    i: nat, v: nat)
    requires Valid(image) && PagesLoaded(flat0, flat, data, free, image, Plan(image, HeaderCount(image)))
    requires i < HeaderCount(image) && SegmentAt(image, i).kind == 1
    requires SegmentAt(image, i).vaddr % PAGE_SIZE == 0 && InUserHalf(SegmentAt(image, i))
    requires SegmentAt(image, i).vaddr <= v && Touches(SegmentAt(image, i), v / PAGE_SIZE)
    ensures var s, page := SegmentAt(image, i), v / PAGE_SIZE;
            && page in flat && flat[page].frame in free && flat[page].frame < |data|
            && flat[page].flags == (if s.flags / 2 % 2 == 1 then 7 else 5)      // present, user; writable
            && ReadsAs(data[flat[page].frame], v % PAGE_SIZE, image, s, v - s.vaddr)
  {
    hide Plan;
    var s, page, plan := SegmentAt(image, i), v / PAGE_SIZE, Plan(image, HeaderCount(image));
    PagesOfSegment(s, page);
    InPlan(image, HeaderCount(image), i, page);
    var k :| 0 <= k < |plan| && plan[k] == Item(page, s);
    assert PageLoaded(flat, data, free, image, plan[k]);
    PageReads(image, s, v);
  }

  lemma PageReads(image: seq<byte>, s: Segment, v: nat)
    requires Sound(s, |image|) && s.vaddr % PAGE_SIZE == 0 && s.vaddr <= v
    ensures ReadsAs(PageBytes(image, s, v / PAGE_SIZE), v % PAGE_SIZE, image, s, v - s.vaddr)
  {
    var page, o := v / PAGE_SIZE, v % PAGE_SIZE;
    assert page * PAGE_SIZE + o == v;
    assert FirstPage(s) <= page;
    assert PageBytes(image, s, page)[o] == ByteAt(image, s, page * PAGE_SIZE + o) == ByteAt(image, s, v);
    AlignedCopy(s, v);
    CopiesFromFile(s, |image|, v);
    hide CopiedFrom, PageBytes;
  }

  /**
   * Nothing else is mapped: a page that was not mapped before shares an address with a PT_LOAD segment,
   * or is the one in which an empty segment starts.
   */
  lemma OnlyTheImage(flat0: map<nat, Mapping>, flat: map<nat, Mapping>, data: Contents, free: set<nat>,
                     image: seq<byte>, page: nat)
    requires Valid(image) && PagesLoaded(flat0, flat, data, free, image, Plan(image, HeaderCount(image)))
    requires page in flat && page !in flat0
    ensures exists i :: 0 <= i < HeaderCount(image) && SegmentAt(image, i).kind == 1
                        && (Touches(SegmentAt(image, i), page) || EmptyInside(SegmentAt(image, i), page))
  {
    hide Plan, Touches, EmptyInside, Sound;
    var plan := Plan(image, HeaderCount(image));
    assert page in PagesIn(plan);
    var k :| 0 <= k < |plan| && plan[k].page == page;
    assert PageLoaded(flat, data, free, image, plan[k]);
    FromPlan(image, HeaderCount(image), plan[k]);
    NoOtherPages(plan[k].seg, |image|, page);
  }
}
