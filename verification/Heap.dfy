/**
 * kernel/mm/heap.c on block headers in memory, each reached through the `next` of the one before.
 * The page allocator is a parameter: whether it maps a page at an address.
 */
module Heap {
  import opened HeapTiles

  const HEAP_START: nat := 0xC100_0000
  const PAGE_SIZE: nat := 4096
  const UINT32_MAX: nat := 0xFFFF_FFFF
  const RECURSIVE_VIRT_BASE: nat := 0xFFC0_0000
  const NULL: nat := 0

  /** struct heap_block; `next` is an address. */
  datatype Block = Block(size: nat, free: bool, next: nat)

  /** The least multiple of 8 that is not below size, or 0 if it is not a uint32_t. */
  function HeapAlign(size: nat): (aligned: nat)
    requires size <= UINT32_MAX
    ensures aligned % HEAP_ALIGNMENT == 0
    ensures if size <= UINT32_MAX - 7 then size <= aligned < size + HEAP_ALIGNMENT else aligned == 0
  {
    if size > UINT32_MAX - (HEAP_ALIGNMENT - 1) then 0
    else (size + HEAP_ALIGNMENT - 1) / HEAP_ALIGNMENT * HEAP_ALIGNMENT
  }

  function NextAddr(tiles: seq<Tile>, i: nat): nat
    requires i < |tiles|
  {
    if i + 1 < |tiles| then tiles[i + 1].addr else NULL
  }

  /** The headers in memory, followed from block to block, are the tiles. */
  ghost predicate Chained(blocks: map<nat, Block>, tiles: seq<Tile>) {
    forall i | 0 <= i < |tiles| ::
      tiles[i].addr in blocks && blocks[tiles[i].addr] == Block(tiles[i].size, tiles[i].free, NextAddr(tiles, i))
  }

  lemma ChainedMerge(blocks: map<nat, Block>, tiles: seq<Tile>, start: nat, end: nat, i: nat)
    requires Chained(blocks, tiles) && Tiling(tiles, start, end) && i + 1 < |tiles|
    ensures var b := Block(tiles[i].size + HEADER + tiles[i + 1].size, true, NextAddr(tiles, i + 1));
            Chained(blocks[tiles[i].addr := b], MergedAt(tiles, i))
  {
    var b := Block(tiles[i].size + HEADER + tiles[i + 1].size, true, NextAddr(tiles, i + 1));
    var blocks', tiles' := blocks[tiles[i].addr := b], MergedAt(tiles, i);
    forall k | 0 <= k < |tiles'|
      ensures tiles'[k].addr in blocks'
              && blocks'[tiles'[k].addr] == Block(tiles'[k].size, tiles'[k].free, NextAddr(tiles', k))
    {
      if k < i {
        TilesOrdered(tiles, start, end, k, i);
      } else if k > i {
        TilesOrdered(tiles, start, end, i, k + 1);
      }
    }
  }

  lemma ChainedSet(blocks: map<nat, Block>, tiles: seq<Tile>, start: nat, end: nat, i: nat, free: bool)
    requires Chained(blocks, tiles) && Tiling(tiles, start, end) && i < |tiles|
    ensures Chained(blocks[tiles[i].addr := blocks[tiles[i].addr].(free := free)], tiles[i := tiles[i].(free := free)])
  {
    var tiles' := tiles[i := tiles[i].(free := free)];
    forall k | 0 <= k < |tiles'| && k != i ensures tiles'[k].addr != tiles[i].addr {
      if k < i { TilesOrdered(tiles, start, end, k, i); } else { TilesOrdered(tiles, start, end, i, k); }
    }
  }

  class Heap {
    var blocks: map<nat, Block>
    var heapHead: nat
    var heapEnd: nat
    ghost var tiles: seq<Tile>

    ghost predicate Valid()
      reads this
    {
      && tiles != [] && heapHead == HEAP_START
      && Tiling(tiles, HEAP_START, heapEnd) && Chained(blocks, tiles)
      && heapEnd % PAGE_SIZE == 0 && heapEnd <= RECURSIVE_VIRT_BASE
    }

    /** heap_init, once its page is mapped. */
    constructor ()
      ensures Valid() && NoFreeNeighbours(tiles) && Live(tiles) == {} && heapEnd == 0xC100_1000
      ensures tiles == [Tile(0xC100_0000, 4080, true)]
    {
      heapHead, heapEnd := HEAP_START, HEAP_START + PAGE_SIZE;
      blocks := map[HEAP_START := Block(PAGE_SIZE - HEADER, true, NULL)];
      tiles := [Tile(HEAP_START, PAGE_SIZE - HEADER, true)];
    }

    /** First fit: the lowest free block that is large enough. */
    method FindFree(size: nat) returns (block: nat, ghost i: nat)
      requires Valid()
      ensures block == NULL <==> NoneFits(tiles, size)
      ensures block == NULL <==> forall t | t in tiles :: t.free ==> t.size < size
      ensures block != NULL ==>
                i < |tiles| && block == tiles[i].addr && Fits(tiles[i], size) && NoneFits(tiles[..i], size)
    {
      block, i := heapHead, 0;
      while block != NULL
        invariant i <= |tiles| && block == if i < |tiles| then tiles[i].addr else NULL
        invariant forall k | 0 <= k < i :: !Fits(tiles[k], size)
        decreases |tiles| - i
      {
        if blocks[block].free && blocks[block].size >= size {
          AddressesPositive(i);
          return;
        }
        AddressesPositive(i);
        block, i := blocks[block].next, i + 1;
      }
      if i < |tiles| { AddressesPositive(i); }
    }

    lemma AddressesPositive(i: nat)
      requires Valid() && i < |tiles|
      ensures HEAP_START <= tiles[i].addr < heapEnd
    {
      TilingSplit(tiles, HEAP_START, heapEnd, i);
      TilingForward(tiles[i..], tiles[i].addr, heapEnd);
    }

    method FindBlock(ptr: nat) returns (block: nat, ghost i: nat)
      requires Valid()
      ensures block == NULL <==> forall k | 0 <= k < |tiles| :: tiles[k].addr + HEADER != ptr
      ensures block != NULL ==> i < |tiles| && block == tiles[i].addr && block + HEADER == ptr
    {
      block, i := heapHead, 0;
      while block != NULL
        invariant i <= |tiles| && block == if i < |tiles| then tiles[i].addr else NULL
        invariant forall k | 0 <= k < i :: tiles[k].addr + HEADER != ptr
        decreases |tiles| - i
      {
        AddressesPositive(i);
        if block + HEADER == ptr { return; }
        block, i := blocks[block].next, i + 1;
      }
      if i < |tiles| { AddressesPositive(i); }
    }

    method LastBlock() returns (block: nat)
      requires Valid()
      ensures block == tiles[|tiles| - 1].addr
    {
      block := heapHead;
      ghost var i := 0;
      AddressesPositive(0);
      while blocks[block].next != NULL
        invariant i < |tiles| && block == tiles[i].addr
        decreases |tiles| - i
      {
        block, i := blocks[block].next, i + 1;
      }
      if i + 1 < |tiles| { AddressesPositive(i + 1); }
    }

    /** The body of the loop of heap_merge when both blocks are free. */
    method MergeNext(block: nat, ghost i: nat)
      requires Valid() && i + 1 < |tiles| && block == tiles[i].addr && tiles[i].free && tiles[i + 1].free
      modifies this`blocks, this`tiles
      ensures Valid() && tiles == MergedAt(old(tiles), i)
    {
      MergeKeeps(tiles, HEAP_START, heapEnd, i);
      ChainedMerge(blocks, tiles, HEAP_START, heapEnd, i);
      var next := blocks[block].next;
      blocks := blocks[block := Block(blocks[block].size + HEADER + blocks[next].size, true, blocks[next].next)];
      tiles := MergedAt(tiles, i);
    }

    lemma HasNext(i: nat)
      requires Valid() && i < |tiles|
      ensures tiles[i].addr in blocks && tiles[i].addr != NULL && blocks[tiles[i].addr].free == tiles[i].free
      ensures blocks[tiles[i].addr].next == NULL <==> i + 1 == |tiles|
      ensures i + 1 < |tiles| ==> blocks[tiles[i].addr].next == tiles[i + 1].addr && tiles[i + 1].addr in blocks
                                  && blocks[tiles[i + 1].addr].free == tiles[i + 1].free
    {
      AddressesPositive(i);
      if i + 1 < |tiles| { AddressesPositive(i + 1); }
    }

    /** Neighbouring free blocks become one; allocations stay where they are. */
    method Merge()
      requires Valid()
      modifies this`blocks, this`tiles
      ensures Valid() && NoFreeNeighbours(tiles) && Live(tiles) == old(Live(tiles))
    {
      hide Tiling, Chained, Live, MergedAt;
      var block := heapHead;
      ghost var i := 0;
      HeadFirst();
      HasNext(0);
      while block != NULL && blocks[block].next != NULL
        invariant Valid() && i < |tiles| && block == tiles[i].addr && block in blocks
        invariant Live(tiles) == old(Live(tiles)) && NoFreeNeighbours(tiles[..i + 1])
        decreases |tiles| - i
      {
        HasNext(i);
        var next := blocks[block].next;
        if blocks[block].free && blocks[next].free {
          MergeKeeps(tiles, HEAP_START, heapEnd, i);
          MergedParts(tiles, i);
          MergeNext(block, i);
        } else {
          SeparatedMore(tiles, i);
          block, i := next, i + 1;
        }
        HasNext(i);
      }
      HasNext(i);
      assert tiles[..i + 1] == tiles;
    }

    /** One more page, if the page allocator grants it: the free space at the end grows by a page. */
    method Expand(grants: nat -> bool) returns (ok: bool)
      requires Valid() && NoFreeNeighbours(tiles)
      requires forall a: nat | grants(a) :: a + PAGE_SIZE <= RECURSIVE_VIRT_BASE
      modifies this
      ensures Valid() && NoFreeNeighbours(tiles) && Live(tiles) == old(Live(tiles))
      ensures ok <==> old(grants(heapEnd))
      ensures heapEnd == old(heapEnd) + if ok then PAGE_SIZE else 0
      ensures tiles == if ok then Grown(old(tiles), heapEnd) else old(tiles)
    {
      hide Tiling, Chained, Live;
      if !grants(heapEnd) { return false; }
      GrownTiles(tiles, HEAP_START, heapEnd);
      AppendPage();
      Merge();
      BlocksDetermined(tiles, Grown(old(tiles), heapEnd), HEAP_START, heapEnd);
      ok := true;
    }

    /** The mapped page becomes the last block. */
    method AppendPage()
      requires Valid() && heapEnd + PAGE_SIZE <= RECURSIVE_VIRT_BASE
      modifies this
      ensures Valid() && tiles == old(tiles) + [Tile(old(heapEnd), PAGE_SIZE - HEADER, true)]
      ensures heapEnd == old(heapEnd) + PAGE_SIZE && Live(tiles) == old(Live(tiles))
    {
      hide Tiling, Chained, Live;
      var block := LastBlock();
      HasNext(|tiles| - 1);
      ChainedAppend(blocks, tiles, HEAP_START, heapEnd, PAGE_SIZE - HEADER);
      assert heapEnd % HEAP_ALIGNMENT == 0;
      AppendKeeps(tiles, HEAP_START, heapEnd, PAGE_SIZE - HEADER);
      blocks := blocks[block := blocks[block].(next := heapEnd)];
      blocks := blocks[heapEnd := Block(PAGE_SIZE - HEADER, true, NULL)];
      tiles := tiles + [Tile(heapEnd, PAGE_SIZE - HEADER, true)];
      heapEnd := heapEnd + PAGE_SIZE;
    }

    /** heap_split_block: what is left over becomes a free block, if more than a header is left. */
    method SplitBlock(block: nat, size: nat, ghost i: nat)
      requires Valid() && i < |tiles| && block == tiles[i].addr && tiles[i].free
      requires size <= tiles[i].size && size % HEAP_ALIGNMENT == 0
      modifies this`blocks, this`tiles
      ensures Valid() && tiles == SplitAt(old(tiles), i, size)
    {
      hide Tiling, Chained;
      HasBlock(i);
      var remaining := blocks[block].size - size;
      SplitTiles(tiles, HEAP_START, heapEnd, i, size);
      if remaining <= HEADER { return; }
      ChainedSplit(blocks, tiles, HEAP_START, heapEnd, i, size);
      var newBlock := block + HEADER + size;
      blocks := blocks[newBlock := Block(remaining - HEADER, true, blocks[block].next)];
      blocks := blocks[block := Block(size, blocks[block].free, newBlock)];
      tiles := SplitAt(tiles, i, size);
    }

    lemma HasBlock(i: nat)
      requires Valid() && i < |tiles|
      ensures tiles[i].addr in blocks
              && blocks[tiles[i].addr] == Block(tiles[i].size, tiles[i].free, NextAddr(tiles, i))
    {
    }

    /** The lowest of the blocks `before` that fits is the one with this payload address, of size `whole`. */
    static ghost predicate FirstFit(before: seq<Tile>, size: nat, ptr: nat, whole: nat) {
      exists k :: 0 <= k < |before| && before[k].addr + HEADER == ptr && before[k].size == whole
                  && Fits(before[k], size) && NoneFits(before[..k], size)
    }

    /** Split block i, which fits, and mark it as used. */
    method Use(block: nat, size: nat, ghost i: nat) returns (ghost a: Allocation)
      requires Valid() && NoFreeNeighbours(tiles) && i < |tiles| && block == tiles[i].addr && Fits(tiles[i], size)
      requires size % HEAP_ALIGNMENT == 0
      modifies this`blocks, this`tiles
      ensures Valid() && NoFreeNeighbours(tiles) && a.addr == block && Carved(tiles, a, size, old(tiles)[i].size)
      ensures a !in old(Live(tiles)) && Live(tiles) == old(Live(tiles)) + {a}
    {
      hide Tiling, Chained, Live;
      ghost var before := tiles;
      AllocateCarves(tiles, i, size);
      a := Allocation(block, PayloadSize(tiles[i], size));
      AllocateTiles(tiles, HEAP_START, heapEnd, i, size);
      AllocateSeparates(tiles, i, size);
      AllocateLives(tiles, i, size);
      FreeIsNotLive(tiles, HEAP_START, heapEnd, i, a);
      SplitThenUse(tiles, i, size);
      SplitBlock(block, size, i);
      HasBlock(i);
      ChainedSet(blocks, tiles, HEAP_START, heapEnd, i, false);
      blocks := blocks[block := blocks[block].(free := false)];
      tiles := tiles[i := tiles[i].(free := false)];
    }

    /**
     * kmalloc. The loop ends because every expansion makes the last free block larger. The result is
     * the lowest block that fits; when none does, the heap grows by no more pages than it takes, and
     * the result is where its last free space begins. It fails for a size that can be represented
     * only when the page allocator refuses a page. All other allocations keep address and size. Of the
     * block, `whole` bytes large, it takes what it needs, and the rest stays free if a header fits.
     */
    method Kmalloc(size: nat, grants: nat -> bool) returns (ptr: nat, ghost a: Allocation, ghost whole: nat)
      requires Valid() && NoFreeNeighbours(tiles) && size <= UINT32_MAX
      requires forall a: nat | grants(a) :: a + PAGE_SIZE <= RECURSIVE_VIRT_BASE
      modifies this
      ensures Valid() && NoFreeNeighbours(tiles) && heapEnd >= old(heapEnd)
      ensures ptr == NULL ==> HeapAlign(size) == 0 || (!grants(heapEnd) && NoneFits(tiles, HeapAlign(size)))
      ensures HeapAlign(size) == 0 || (!grants(old(heapEnd)) && NoneFits(old(tiles), HeapAlign(size))) ==> ptr == NULL
      ensures ptr == NULL ==> Live(tiles) == old(Live(tiles))
      ensures ptr != NULL ==>
                && a.addr + HEADER == ptr && a !in old(Live(tiles)) && Live(tiles) == old(Live(tiles)) + {a}
                && HeapAlign(size) <= a.size <= HeapAlign(size) + HEADER && Carved(tiles, a, HeapAlign(size), whole)
      ensures HeapAlign(size) != 0 && (exists t :: t in old(tiles) && t.free && t.size >= HeapAlign(size)) ==>
                ptr != NULL && heapEnd == old(heapEnd)
      ensures HeapAlign(size) != 0 && !NoneFits(old(tiles), HeapAlign(size)) ==>
                heapEnd == old(heapEnd) && FirstFit(old(tiles), HeapAlign(size), ptr, whole)
      ensures ptr != NULL && NoneFits(old(tiles), HeapAlign(size)) ==>
                ptr == TailStart(old(tiles), old(heapEnd)) + HEADER && whole == heapEnd - ptr
                && ptr + HeapAlign(size) <= heapEnd < ptr + HeapAlign(size) + PAGE_SIZE
    {
      hide Tiling, Chained, Live, Grown, TailStart;
      a, whole := Allocation(0, 0), 0;
      if size == 0 { return NULL, a, whole; }
      var aligned := HeapAlign(size);
      if aligned == 0 { return NULL, a, whole; }
      ghost var first, end0, tail := tiles, heapEnd, TailStart(tiles, heapEnd);
      var block;
      ghost var i: nat := 0;
      block, i := FindFree(aligned);
      while block == NULL
        invariant Valid() && NoFreeNeighbours(tiles) && heapEnd >= old(heapEnd) && Live(tiles) == old(Live(tiles))
        invariant block == NULL <==> NoneFits(tiles, aligned)
        invariant block != NULL ==>
                    i < |tiles| && block == tiles[i].addr && Fits(tiles[i], aligned) && NoneFits(tiles[..i], aligned)
        invariant GrownFrom(first, end0, tiles, heapEnd)
        invariant heapEnd > end0 ==>
                    NoneFits(first, aligned) && grants(end0) && heapEnd < tail + HEADER + aligned + PAGE_SIZE
        decreases tail + HEADER + aligned - heapEnd
      {
        LastEnds(tiles, HEAP_START, heapEnd);
        GrownAgain(first, end0, tiles, heapEnd);
        TailTooSmall(tiles, HEAP_START, heapEnd, aligned);
        var ok := Expand(grants);
        if !ok { return NULL, a, whole; }
        block, i := FindFree(aligned);
      }
      if heapEnd > end0 && i < |tiles| - 1 { OnlyLastFits(first, end0, tiles, heapEnd, aligned, i); }
      AddressesPositive(i);
      whole := tiles[i].size;
      a := Use(block, aligned, i);
      ptr := block + HEADER;
    }

    method MarkFree(block: nat, ghost i: nat)
      requires Valid() && i < |tiles| && block == tiles[i].addr && !tiles[i].free
      modifies this`blocks, this`tiles
      ensures Valid() && Live(tiles) == old(Live(tiles)) - {Allocation(block, old(tiles)[i].size)}
    {
      hide Tiling, Chained, Live;
      HasBlock(i);
      FreeKeeps(tiles, HEAP_START, heapEnd, i);
      ChainedSet(blocks, tiles, HEAP_START, heapEnd, i, true);
      blocks := blocks[block := blocks[block].(free := true)];
      tiles := tiles[i := tiles[i].(free := true)];
    }

    /** kfree of a live allocation: it is gone, the others stay, and free neighbours are merged. */
    method Kfree(ptr: nat)
      requires Valid() && NoFreeNeighbours(tiles)
      requires ptr != NULL ==> exists a :: a in Live(tiles) && a.addr + HEADER == ptr
      modifies this`blocks, this`tiles
      ensures Valid() && NoFreeNeighbours(tiles)
      ensures ptr == NULL ==> tiles == old(tiles)
      ensures ptr != NULL ==>
                exists a :: a in old(Live(tiles)) && a.addr + HEADER == ptr && Live(tiles) == old(Live(tiles)) - {a}
    {
      if ptr == NULL { return; }
      hide Tiling, Chained, Live;
      ghost var a :| a in Live(tiles) && a.addr + HEADER == ptr;
      ghost var k := LivePlace(tiles, a);
      var block;
      ghost var i;
      block, i := FindBlock(ptr);
      SamePlace(tiles, HEAP_START, heapEnd, i, k);
      MarkFree(block, i);
      Merge();
    }

    lemma HeadFirst()
      requires Valid()
      ensures tiles[0].addr == heapHead
    {
    }
  }

  lemma MergedParts(tiles: seq<Tile>, i: nat)
    requires i + 1 < |tiles| && NoFreeNeighbours(tiles[..i + 1]) && tiles[i].free && tiles[i + 1].free
    ensures var tiles' := MergedAt(tiles, i);
            i < |tiles'| == |tiles| - 1 && tiles'[i].addr == tiles[i].addr && NoFreeNeighbours(tiles'[..i + 1])
  {
    var tiles' := MergedAt(tiles, i);
    var before, after := tiles[..i + 1], tiles'[..i + 1];
    forall k | 0 <= k < i ensures !(after[k].free && after[k + 1].free) {
      assert !(before[k].free && before[k + 1].free);
    }
  }

  lemma SeparatedMore(tiles: seq<Tile>, i: nat)
    requires i + 1 < |tiles| && NoFreeNeighbours(tiles[..i + 1]) && !(tiles[i].free && tiles[i + 1].free)
    ensures NoFreeNeighbours(tiles[..i + 1 + 1])
  {
    var before, after := tiles[..i + 1], tiles[..i + 2];
    forall k | 0 <= k < i + 1 ensures !(after[k].free && after[k + 1].free) {
      if k < i { assert !(before[k].free && before[k + 1].free); }
    }
  }

  /** A free block in which an allocation finds room. */
  predicate Fits(t: Tile, size: nat) {
    t.free && t.size >= size
  }

  predicate NoneFits(tiles: seq<Tile>, size: nat) {
    forall k | 0 <= k < |tiles| :: !Fits(tiles[k], size)
  }

  /**
   * What is left of a block of `whole` bytes once `size` are allocated from it: the allocation has just
   * that size and the rest is a free block behind it, or it has the whole block, if no more than a header
   * would be left.
   */
  ghost predicate Carved(tiles: seq<Tile>, a: Allocation, size: nat, whole: nat) {
    if whole <= size + HEADER then a.size == whole >= size
    else a.size == size && Tile(a.addr + HEADER + size, whole - size - HEADER, true) in tiles
  }

  lemma AllocateCarves(tiles: seq<Tile>, i: nat, size: nat)
    requires i < |tiles| && size <= tiles[i].size
    ensures var a := Allocation(tiles[i].addr, PayloadSize(tiles[i], size));
            Carved(AllocatedAt(tiles, i, size), a, size, tiles[i].size)
  {
    var t, tiles' := tiles[i], AllocatedAt(tiles, i, size);
    if t.size - size > HEADER {
      assert tiles'[i + 1] == Tile(t.addr + HEADER + size, t.size - size - HEADER, true);
    }
  }

  lemma FreeIsNotLive(tiles: seq<Tile>, start: nat, end: nat, i: nat, a: Allocation)
    requires Tiling(tiles, start, end) && i < |tiles| && tiles[i].free && a.addr == tiles[i].addr
    ensures a !in Live(tiles)
  {
    if a in Live(tiles) { LiveHasAddress(tiles, start, end, i, a); }
  }

  lemma LivePlace(tiles: seq<Tile>, a: Allocation) returns (k: nat)
    requires a in Live(tiles)
    ensures k < |tiles| && !tiles[k].free && a == Allocation(tiles[k].addr, tiles[k].size)
  {
    k :| 0 <= k < |tiles| && !tiles[k].free && a == Allocation(tiles[k].addr, tiles[k].size);
  }

  lemma SamePlace(tiles: seq<Tile>, start: nat, end: nat, i: nat, k: nat)
    requires Tiling(tiles, start, end) && i < |tiles| && k < |tiles| && tiles[i].addr == tiles[k].addr
    ensures i == k
  {
    if i < k { TilesOrdered(tiles, start, end, i, k); } else if k < i { TilesOrdered(tiles, start, end, k, i); }
  }

  function SplitAt(tiles: seq<Tile>, i: nat, size: nat): seq<Tile>
    requires i < |tiles| && size <= tiles[i].size
  {
    var t := tiles[i];
    if t.size - size <= HEADER then tiles
    else
      tiles[..i] + [Tile(t.addr, size, t.free), Tile(t.addr + HEADER + size, t.size - size - HEADER, true)]
        + tiles[i + 1..]
  }

  lemma SplitThenUse(tiles: seq<Tile>, i: nat, size: nat)
    requires i < |tiles| && size <= tiles[i].size
    ensures var split := SplitAt(tiles, i, size);
            && i < |split| && split[i].addr == tiles[i].addr && split[i].free == tiles[i].free
            && split[i := split[i].(free := false)] == AllocatedAt(tiles, i, size)
  {
  }

  lemma SplitTiles(tiles: seq<Tile>, start: nat, end: nat, i: nat, size: nat)
    requires Tiling(tiles, start, end) && i < |tiles| && size <= tiles[i].size && size % HEAP_ALIGNMENT == 0
    ensures Tiling(SplitAt(tiles, i, size), start, end) && SplitAt(tiles, i, size) != []
  {
    var t := tiles[i];
    if t.size - size > HEADER {
      var pieces := [Tile(t.addr, size, t.free), Tile(t.addr + HEADER + size, t.size - size - HEADER, true)];
      TilingSplit(tiles, start, end, i);
      assert tiles[i..][1..] == tiles[i + 1..];
      TwoPieces(t, size);
      PutInPlace(tiles[..i], pieces, tiles[i + 1..], start, t.addr, End(t), end);
    }
  }

  lemma TwoPieces(t: Tile, size: nat)
    requires size + HEADER < t.size && t.addr % HEAP_ALIGNMENT == t.size % HEAP_ALIGNMENT == size % HEAP_ALIGNMENT == 0
    ensures var pieces := [Tile(t.addr, size, t.free), Tile(t.addr + HEADER + size, t.size - size - HEADER, true)];
            Tiling(pieces, t.addr, End(t))
  {
    var pieces := [Tile(t.addr, size, t.free), Tile(t.addr + HEADER + size, t.size - size - HEADER, true)];
    assert pieces[1..] == [pieces[1]] && pieces[1..][1..] == [];
  }

  lemma PutInPlace(a: seq<Tile>, b: seq<Tile>, c: seq<Tile>, start: nat, from: nat, to: nat, end: nat)
    requires Tiling(a, start, from) && Tiling(b, from, to) && Tiling(c, to, end)
    ensures Tiling(a + b + c, start, end)
  {
    hide Tiling;
    TilingJoin(a, b, start, from, to);
    TilingJoin(a + b, c, start, to, end);
  }

  lemma ChainedSplit(blocks: map<nat, Block>, tiles: seq<Tile>, start: nat, end: nat, i: nat, size: nat)
    requires Chained(blocks, tiles) && Tiling(tiles, start, end) && i < |tiles| && size <= tiles[i].size
    requires size + HEADER < tiles[i].size
    ensures Chained(SplitBlocks(blocks, tiles, i, size), SplitAt(tiles, i, size))
  {
    var tiles' := SplitAt(tiles, i, size);
    var blocks' := SplitBlocks(blocks, tiles, i, size);
    hide Tiling, SplitAt, NextAddr, SplitBlocks, LinkedAt;
    SplitHere(tiles, i, size);
    forall k | 0 <= k < |tiles'| ensures LinkedAt(blocks', tiles', k) {
      if k < i {
        TilesOrdered(tiles, start, end, k, i);
        SplitBefore(blocks, tiles, i, size, k);
      } else if k > i + 1 {
        TilesOrdered(tiles, start, end, i, k - 1);
        SplitAfter(blocks, tiles, i, size, k);
      } else {
        SplitLinked(blocks, tiles, i, size, k);
      }
    }
    AllLinked(blocks', tiles');
  }

  /** The header of block k is in memory. */
  ghost predicate LinkedAt(blocks: map<nat, Block>, tiles: seq<Tile>, k: nat)
    requires k < |tiles|
  {
    tiles[k].addr in blocks && blocks[tiles[k].addr] == Block(tiles[k].size, tiles[k].free, NextAddr(tiles, k))
  }

  lemma AllLinked(blocks: map<nat, Block>, tiles: seq<Tile>)
    requires forall k | 0 <= k < |tiles| :: LinkedAt(blocks, tiles, k)
    ensures Chained(blocks, tiles)
  {
    forall k | 0 <= k < |tiles|
      ensures tiles[k].addr in blocks
              && blocks[tiles[k].addr] == Block(tiles[k].size, tiles[k].free, NextAddr(tiles, k))
    {
      assert LinkedAt(blocks, tiles, k);
    }
  }

  /** The two headers that heap_split_block writes. */
  function SplitBlocks(blocks: map<nat, Block>, tiles: seq<Tile>, i: nat, size: nat): map<nat, Block>
    requires i < |tiles| && size + HEADER < tiles[i].size
  {
    var t := tiles[i];
    var rest := t.addr + HEADER + size;
    blocks[rest := Block(t.size - size - HEADER, true, NextAddr(tiles, i))][t.addr := Block(size, t.free, rest)]
  }

  lemma SplitHere(tiles: seq<Tile>, i: nat, size: nat)
    requires i < |tiles| && size + HEADER < tiles[i].size
    ensures var tiles', t := SplitAt(tiles, i, size), tiles[i];
            && |tiles'| == |tiles| + 1
            && tiles'[i] == Tile(t.addr, size, t.free) && NextAddr(tiles', i) == t.addr + HEADER + size
            && tiles'[i + 1] == Tile(t.addr + HEADER + size, t.size - size - HEADER, true)
            && NextAddr(tiles', i + 1) == NextAddr(tiles, i)
  {
  }

  lemma SplitLinked(blocks: map<nat, Block>, tiles: seq<Tile>, i: nat, size: nat, k: nat)
    requires i < |tiles| && size + HEADER < tiles[i].size && i <= k <= i + 1
    ensures k < |SplitAt(tiles, i, size)| && LinkedAt(SplitBlocks(blocks, tiles, i, size), SplitAt(tiles, i, size), k)
  {
    SplitHere(tiles, i, size);
    hide SplitAt, NextAddr;
  }

  lemma SplitBefore(blocks: map<nat, Block>, tiles: seq<Tile>, i: nat, size: nat, k: nat)
    requires k < i < |tiles| && size + HEADER < tiles[i].size && Chained(blocks, tiles)
    requires End(tiles[k]) <= tiles[i].addr
    ensures k < |SplitAt(tiles, i, size)| && LinkedAt(SplitBlocks(blocks, tiles, i, size), SplitAt(tiles, i, size), k)
  {
  }

  lemma SplitAfter(blocks: map<nat, Block>, tiles: seq<Tile>, i: nat, size: nat, k: nat)
    requires i < |tiles| && size + HEADER < tiles[i].size && i + 1 < k <= |tiles| && Chained(blocks, tiles)
    requires End(tiles[i]) <= tiles[k - 1].addr
    ensures k < |SplitAt(tiles, i, size)| && LinkedAt(SplitBlocks(blocks, tiles, i, size), SplitAt(tiles, i, size), k)
  {
  }

  lemma ChainedAppend(blocks: map<nat, Block>, tiles: seq<Tile>, start: nat, end: nat, size: nat)
    requires Chained(blocks, tiles) && Tiling(tiles, start, end) && tiles != []
    ensures var last := tiles[|tiles| - 1].addr;
            Chained(blocks[last := blocks[last].(next := end)][end := Block(size, true, NULL)],
                    tiles + [Tile(end, size, true)])
  {
    var n := |tiles|;
    var last := tiles[n - 1].addr;
    var blocks', tiles' := blocks[last := blocks[last].(next := end)][end := Block(size, true, NULL)],
                           tiles + [Tile(end, size, true)];
    forall k | 0 <= k < |tiles'|
      ensures tiles'[k].addr in blocks'
              && blocks'[tiles'[k].addr] == Block(tiles'[k].size, tiles'[k].free, NextAddr(tiles', k))
    {
      if k < n {
        TilingSplit(tiles, start, end, k);
        TilingForward(tiles[k..], tiles[k].addr, end);
        if k < n - 1 { TilesOrdered(tiles, start, end, k, n - 1); }
      }
    }
  }

  // ----- growth by a page -----

  /** The blocks before the free space at the end. */
  function Front(tiles: seq<Tile>): seq<Tile>
    requires tiles != []
  {
    if tiles[|tiles| - 1].free then tiles[..|tiles| - 1] else tiles
  }

  /** Where the free space at the end begins. */
  function TailStart(tiles: seq<Tile>, end: nat): nat
    requires tiles != []
  {
    if tiles[|tiles| - 1].free then tiles[|tiles| - 1].addr else end
  }

  /** The blocks once the heap has grown by a page to `end`. */
  function Grown(tiles: seq<Tile>, end: nat): seq<Tile>
    requires tiles != [] && end >= PAGE_SIZE
  {
    var last := tiles[|tiles| - 1];
    Front(tiles) + [if last.free then Tile(last.addr, last.size + PAGE_SIZE, true)
                    else Tile(end - PAGE_SIZE, PAGE_SIZE - HEADER, true)]
  }

  lemma LastEnds(tiles: seq<Tile>, start: nat, end: nat)
    requires Tiling(tiles, start, end) && tiles != []
    ensures var last := tiles[|tiles| - 1];
            && End(last) == end && start <= last.addr && last.addr % HEAP_ALIGNMENT == last.size % HEAP_ALIGNMENT == 0
            && Tiling(tiles[..|tiles| - 1], start, last.addr)
  {
    TilingSplit(tiles, start, end, |tiles| - 1);
    assert tiles[|tiles| - 1..][1..] == [];
  }

  lemma GrownTiles(tiles: seq<Tile>, start: nat, end: nat)
    requires Tiling(tiles, start, end) && NoFreeNeighbours(tiles) && tiles != [] && end % PAGE_SIZE == 0
    ensures var grown := Grown(tiles, end + PAGE_SIZE);
            Tiling(grown, start, end + PAGE_SIZE) && NoFreeNeighbours(grown) && Live(grown) == Live(tiles)
  {
    hide NoFreeNeighbours, Live;
    var grown := Grown(tiles, end + PAGE_SIZE);
    var last := grown[|grown| - 1];
    LastEnds(tiles, start, end);
    assert [last][1..] == [];
    TilingJoin(Front(tiles), [last], start, last.addr, end + PAGE_SIZE);
    NoFreeNeighboursGrown(tiles, last);
    FreeEnd(tiles, last);
  }

  lemma FreeEnd(tiles: seq<Tile>, last: Tile)
    requires tiles != [] && last.free
    ensures Live(Front(tiles) + [last]) == Live(tiles)
  {
    var n := |tiles|;
    LiveConcat(Front(tiles), [last]);
    assert Live([last]) == {};
    if tiles[n - 1].free {
      LiveConcat(tiles[..n - 1], [tiles[n - 1]]);
      assert tiles == tiles[..n - 1] + [tiles[n - 1]];
      assert Live([tiles[n - 1]]) == {};
    }
  }

  lemma NoFreeNeighboursGrown(tiles: seq<Tile>, last: Tile)
    requires NoFreeNeighbours(tiles) && tiles != []
    ensures NoFreeNeighbours(Front(tiles) + [last])
  {
    var front := Front(tiles);
    var grown := front + [last];
    forall k | 0 <= k < |grown| - 1 ensures !(grown[k].free && grown[k + 1].free) {
      if k + 1 < |tiles| {
        assert !(tiles[k].free && tiles[k + 1].free);
      }
    }
  }

  /** When nothing fits, the free space at the end is too small as well. */
  lemma TailTooSmall(tiles: seq<Tile>, start: nat, end: nat, size: nat)
    requires Tiling(tiles, start, end) && tiles != [] && NoneFits(tiles, size)
    ensures end < TailStart(tiles, end) + HEADER + size
  {
    LastEnds(tiles, start, end);
    assert !Fits(tiles[|tiles| - 1], size);
  }

  /** The blocks `first`, up to end0, after growth by some pages, if any, to `end`. */
  ghost predicate GrownFrom(first: seq<Tile>, end0: nat, tiles: seq<Tile>, end: nat) {
    && first != [] && end0 <= end
    && if end == end0 then tiles == first
       else var tail := TailStart(first, end0);
            tail + HEADER <= end && tiles == Front(first) + [Tile(tail, end - tail - HEADER, true)]
  }

  /** Growing again moves neither the blocks in front nor the start of the free space. */
  lemma GrownAgain(first: seq<Tile>, end0: nat, tiles: seq<Tile>, end: nat)
    requires GrownFrom(first, end0, tiles, end) && tiles != []
    requires End(tiles[|tiles| - 1]) == end
    ensures GrownFrom(first, end0, Grown(tiles, end + PAGE_SIZE), end + PAGE_SIZE)
    ensures TailStart(tiles, end) == TailStart(first, end0)
  {
    if end > end0 {
      assert Front(tiles) == Front(first);
    }
  }

  /** In a heap that has grown because nothing fitted, only the free space at the end can fit. */
  lemma OnlyLastFits(first: seq<Tile>, end0: nat, tiles: seq<Tile>, end: nat, size: nat, i: nat)
    requires GrownFrom(first, end0, tiles, end) && end > end0 && NoneFits(first, size) && i < |tiles| - 1
    ensures !Fits(tiles[i], size)
  {
    assert tiles[i] == first[i];
  }
}
