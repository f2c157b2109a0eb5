/** A heap as the sequence of blocks that tile it, and what merging and splitting do to the sequence. */
module HeapTiles {

  const HEADER: nat := 16                       // sizeof(struct heap_block), aligned to 8
  const HEAP_ALIGNMENT: nat := 8

  /** A block: the address of its header, the size of its payload, and whether it is free. */
  datatype Tile = Tile(addr: nat, size: nat, free: bool)

  /** An allocation as its holder knows it: header address and payload size. */
  datatype Allocation = Allocation(addr: nat, size: nat)

  function End(t: Tile): nat {
    t.addr + HEADER + t.size
  }

  /** The blocks follow each other from `start` to `end` without gap or overlap, all 8-aligned. */
  ghost predicate Tiling(tiles: seq<Tile>, start: nat, end: nat) {
    if tiles == [] then start == end
    else tiles[0].addr == start && start % HEAP_ALIGNMENT == 0 && tiles[0].size % HEAP_ALIGNMENT == 0
         && Tiling(tiles[1..], End(tiles[0]), end)
  }

  ghost predicate NoFreeNeighbours(tiles: seq<Tile>) {
    forall i | 0 <= i < |tiles| - 1 :: !(tiles[i].free && tiles[i + 1].free)
  }

  function Live(tiles: seq<Tile>): set<Allocation> {
    set i | 0 <= i < |tiles| && !tiles[i].free :: Allocation(tiles[i].addr, tiles[i].size)
  }

  // ----- tilings -----

  lemma {:induction false} TilingSplit(tiles: seq<Tile>, start: nat, end: nat, i: nat)
    requires Tiling(tiles, start, end) && i <= |tiles|
    ensures var mid := if i < |tiles| then tiles[i].addr else end;
            Tiling(tiles[..i], start, mid) && Tiling(tiles[i..], mid, end) && start <= mid <= end
  {
    if i == 0 {
      assert tiles[0..] == tiles && tiles[..0] == [];
      TilingForward(tiles, start, end);
    } else {
      TilingSplit(tiles[1..], End(tiles[0]), end, i - 1);
      assert tiles[..i][1..] == tiles[1..][..i - 1] && tiles[i..] == tiles[1..][i - 1..];
    }
  }

  lemma {:induction false} TilingForward(tiles: seq<Tile>, start: nat, end: nat)
    requires Tiling(tiles, start, end)
    ensures start <= end && (tiles != [] ==> start < end)
  {
    if tiles != [] {
      TilingForward(tiles[1..], End(tiles[0]), end);
    }
  }

  lemma {:induction false} TilingJoin(a: seq<Tile>, b: seq<Tile>, start: nat, mid: nat, end: nat)
    requires Tiling(a, start, mid) && Tiling(b, mid, end)
    ensures Tiling(a + b, start, end)
  {
    if a == [] {
      assert a + b == b;
    } else {
      assert (a + b)[1..] == a[1..] + b;
      TilingJoin(a[1..], b, End(a[0]), mid, end);
    }
  }

  /** Blocks do not overlap: an earlier one ends where or before a later one starts. */
  lemma TilesOrdered(tiles: seq<Tile>, start: nat, end: nat, i: nat, j: nat)
    requires Tiling(tiles, start, end) && i < j < |tiles|
    ensures start <= tiles[i].addr && End(tiles[i]) <= tiles[j].addr && End(tiles[j]) <= end
  {
    TilingSplit(tiles, start, end, i);
    var rest := tiles[i..];
    TilingSplit(rest, tiles[i].addr, end, 1);
    TilingSplit(rest[1..], End(tiles[i]), end, j - i - 1);
    assert rest[1..][j - i - 1] == tiles[j];
    var last := rest[1..][j - i - 1..];
    TilingForward(last[1..], End(tiles[j]), end);
  }

  /** Header and payload sizes add up to the extent of the heap. */
  ghost function Extent(tiles: seq<Tile>): nat {
    if tiles == [] then 0 else HEADER + tiles[0].size + Extent(tiles[1..])
  }

  lemma {:induction false} SizesSumToExtent(tiles: seq<Tile>, start: nat, end: nat)
    requires Tiling(tiles, start, end)
    ensures start + Extent(tiles) == end
  {
    if tiles != [] {
      SizesSumToExtent(tiles[1..], End(tiles[0]), end);
    }
  }

  /** Live payloads are disjoint, aligned, and inside the heap. */
  lemma LivePayloadsDisjoint(tiles: seq<Tile>, start: nat, end: nat, a: Allocation, b: Allocation)
    requires Tiling(tiles, start, end) && a in Live(tiles) && b in Live(tiles) && a != b
    ensures a.addr + HEADER + a.size <= b.addr || b.addr + HEADER + b.size <= a.addr
  {
    var i :| 0 <= i < |tiles| && !tiles[i].free && a == Allocation(tiles[i].addr, tiles[i].size);
    var j :| 0 <= j < |tiles| && !tiles[j].free && b == Allocation(tiles[j].addr, tiles[j].size);
    if i < j { TilesOrdered(tiles, start, end, i, j); } else { TilesOrdered(tiles, start, end, j, i); }
  }

  // ----- merging two blocks, splitting one -----

  function MergedAt(tiles: seq<Tile>, i: nat): seq<Tile>
    requires i + 1 < |tiles|
  {
    tiles[..i] + [Tile(tiles[i].addr, tiles[i].size + HEADER + tiles[i + 1].size, true)] + tiles[i + 2..]
  }

  lemma MergeKeeps(tiles: seq<Tile>, start: nat, end: nat, i: nat)
    requires Tiling(tiles, start, end) && i + 1 < |tiles| && tiles[i].free && tiles[i + 1].free
    ensures Tiling(MergedAt(tiles, i), start, end) && Live(MergedAt(tiles, i)) == Live(tiles)
  {
    var merged := [Tile(tiles[i].addr, tiles[i].size + HEADER + tiles[i + 1].size, true)];
    var rest := tiles[i + 2..];
    TilingSplit(tiles, start, end, i);
    assert tiles[i..][1..][1..] == rest;
    assert (merged + rest)[1..] == rest;
    TilingJoin(tiles[..i], merged + rest, start, tiles[i].addr, end);
    assert MergedAt(tiles, i) == tiles[..i] + (merged + rest);
    LiveReplaced(tiles, i, 2, merged);
  }

  /** Replacing blocks by others changes the live allocations only by those blocks. */
  lemma LiveReplaced(tiles: seq<Tile>, i: nat, n: nat, blocks: seq<Tile>)
    requires i + n <= |tiles|
    ensures Live(tiles[..i] + blocks + tiles[i + n..]) == Live(tiles[..i]) + Live(blocks) + Live(tiles[i + n..])
    ensures Live(tiles) == Live(tiles[..i]) + Live(tiles[i..i + n]) + Live(tiles[i + n..])
  {
    LiveConcat(tiles[..i] + blocks, tiles[i + n..]);
    LiveConcat(tiles[..i], blocks);
    LiveConcat(tiles[..i + n], tiles[i + n..]);
    LiveConcat(tiles[..i], tiles[i..i + n]);
    assert tiles == tiles[..i + n] + tiles[i + n..] && tiles[..i + n] == tiles[..i] + tiles[i..i + n];
  }

  lemma LiveConcat(a: seq<Tile>, b: seq<Tile>)
    ensures Live(a + b) == Live(a) + Live(b)
  {
    var ab := a + b;
    forall x | x in Live(a) ensures x in Live(ab) {
      var i :| 0 <= i < |a| && !a[i].free && x == Allocation(a[i].addr, a[i].size);
      assert ab[i] == a[i];
    }
    forall x | x in Live(b) ensures x in Live(ab) {
      var i :| 0 <= i < |b| && !b[i].free && x == Allocation(b[i].addr, b[i].size);
      assert ab[|a| + i] == b[i];
    }
  }

  /** heap_split_block and the marking as used: the rest becomes a block of its own if a header fits. */
  function AllocatedAt(tiles: seq<Tile>, i: nat, size: nat): seq<Tile>
    requires i < |tiles| && size <= tiles[i].size
  {
    var t := tiles[i];
    tiles[..i] + Pieces(t, size) + tiles[i + 1..]
  }

  function PayloadSize(t: Tile, size: nat): nat {
    if t.size - size <= HEADER then t.size else size
  }

  /** The one or two blocks that an allocation makes of a free one. */
  function Pieces(t: Tile, size: nat): seq<Tile>
    requires size <= t.size
  {
    if t.size - size <= HEADER then [t.(free := false)]
    else [Tile(t.addr, size, false), Tile(t.addr + HEADER + size, t.size - size - HEADER, true)]
  }

  lemma PiecesTile(t: Tile, size: nat)
    requires size <= t.size && size % HEAP_ALIGNMENT == 0 && t.size % HEAP_ALIGNMENT == 0
             && t.addr % HEAP_ALIGNMENT == 0
    ensures Tiling(Pieces(t, size), t.addr, End(t))
  {
    if t.size - size > HEADER {
      assert Pieces(t, size)[1..] == [Tile(t.addr + HEADER + size, t.size - size - HEADER, true)];
    }
  }

  lemma AllocateTiles(tiles: seq<Tile>, start: nat, end: nat, i: nat, size: nat)
    requires Tiling(tiles, start, end) && i < |tiles| && size <= tiles[i].size && size % HEAP_ALIGNMENT == 0
    ensures Tiling(AllocatedAt(tiles, i, size), start, end)
  {
    var t := tiles[i];
    TilingSplit(tiles, start, end, i);
    assert tiles[i..][1..] == tiles[i + 1..];
    PiecesTile(t, size);
    hide Pieces;
    TilingJoin(Pieces(t, size), tiles[i + 1..], t.addr, End(t), end);
    TilingJoin(tiles[..i], Pieces(t, size) + tiles[i + 1..], start, t.addr, end);
    assert AllocatedAt(tiles, i, size) == tiles[..i] + (Pieces(t, size) + tiles[i + 1..]);
  }

  lemma AllocateSeparates(tiles: seq<Tile>, i: nat, size: nat)
    requires NoFreeNeighbours(tiles) && i < |tiles| && tiles[i].free && size <= tiles[i].size
    ensures NoFreeNeighbours(AllocatedAt(tiles, i, size))
  {
    var tiles' := AllocatedAt(tiles, i, size);
    var n := |Pieces(tiles[i], size)|;
    forall k | 0 <= k < |tiles'| - 1 ensures !(tiles'[k].free && tiles'[k + 1].free) {
      if k + 1 < i {
        assert !(tiles[k].free && tiles[k + 1].free);
      } else if k >= i + n {
        assert tiles'[k] == tiles[k - n + 1] && tiles'[k + 1] == tiles[k - n + 1 + 1];
        assert !(tiles[k - n + 1].free && tiles[k - n + 1 + 1].free);
      } else if k == i + n - 1 {
        assert tiles'[k + 1] == tiles[i + 1];
        assert !(tiles[i].free && tiles[i + 1].free);
      }
    }
  }

  lemma AllocateLives(tiles: seq<Tile>, i: nat, size: nat)
    requires i < |tiles| && tiles[i].free && size <= tiles[i].size
    ensures Live(AllocatedAt(tiles, i, size)) == Live(tiles) + {Allocation(tiles[i].addr, PayloadSize(tiles[i], size))}
  {
    var t := tiles[i];
    LiveReplaced(tiles, i, 1, Pieces(t, size));
    LiveOfBlocks(t, Pieces(t, size));
    assert tiles[i..i + 1] == [t];
    assert Live([t]) == {};
  }

  lemma LiveOfBlocks(t: Tile, blocks: seq<Tile>)
    requires |blocks| == 1 || (|blocks| == 2 && blocks[1].free)
    requires !blocks[0].free && blocks[0].addr == t.addr
    ensures Live(blocks) == {Allocation(t.addr, blocks[0].size)}
  {
    assert Allocation(blocks[0].addr, blocks[0].size) in Live(blocks);
  }

  lemma FreeKeeps(tiles: seq<Tile>, start: nat, end: nat, i: nat)
    requires Tiling(tiles, start, end) && i < |tiles| && !tiles[i].free
    ensures var tiles' := tiles[i := tiles[i].(free := true)];
            && Tiling(tiles', start, end)
            && Live(tiles') == Live(tiles) - {Allocation(tiles[i].addr, tiles[i].size)}
  {
    var t, rest := tiles[i].(free := true), tiles[i + 1..];
    var tiles' := tiles[i := t];
    TilingSplit(tiles, start, end, i);
    assert tiles[i..][1..] == rest && ([t] + rest)[1..] == rest;
    TilingJoin(tiles[..i], [t] + rest, start, t.addr, end);
    assert tiles' == tiles[..i] + ([t] + rest);
    LiveReplaced(tiles, i, 1, [t]);
    assert tiles' == tiles[..i] + [t] + tiles[i + 1..];
    assert Live([t]) == {};
    assert Live(tiles[i..i + 1]) == {Allocation(tiles[i].addr, tiles[i].size)} by {
      assert tiles[i..i + 1] == [tiles[i]];
      LiveOfBlocks(tiles[i], [tiles[i]]);
    }
    LiveElsewhere(tiles, start, end, i);
  }

  lemma LiveElsewhere(tiles: seq<Tile>, start: nat, end: nat, i: nat)
    requires Tiling(tiles, start, end) && i < |tiles|
    ensures forall a | a in Live(tiles[..i]) + Live(tiles[i + 1..]) :: a.addr != tiles[i].addr
  {
    forall a | a in Live(tiles[..i]) ensures a.addr != tiles[i].addr {
      var k :| 0 <= k < i && a.addr == tiles[k].addr;
      TilesOrdered(tiles, start, end, k, i);
    }
    forall a | a in Live(tiles[i + 1..]) ensures a.addr != tiles[i].addr {
      var k :| 0 <= k < |tiles[i + 1..]| && a.addr == tiles[i + 1..][k].addr;
      TilesOrdered(tiles, start, end, i, i + 1 + k);
    }
  }

  /** A page appended as a free block. */
  lemma AppendKeeps(tiles: seq<Tile>, start: nat, end: nat, size: nat)
    requires Tiling(tiles, start, end) && size % HEAP_ALIGNMENT == 0 && end % HEAP_ALIGNMENT == 0
    ensures Tiling(tiles + [Tile(end, size, true)], start, end + HEADER + size)
    ensures Live(tiles + [Tile(end, size, true)]) == Live(tiles)
  {
    TilingJoin(tiles, [Tile(end, size, true)], start, end, end + HEADER + size);
    LiveConcat(tiles, [Tile(end, size, true)]);
    assert Live([Tile(end, size, true)]) == {};
  }

  // ----- the blocks are determined blocks the live allocations -----

  lemma LiveMember(tiles: seq<Tile>, i: nat)
    requires i < |tiles|
    ensures !tiles[i].free ==> Allocation(tiles[i].addr, tiles[i].size) in Live(tiles)
  {
  }

  lemma TwoFree(tiles: seq<Tile>)
    requires |tiles| > 1 && forall i | 0 <= i < |tiles| :: tiles[i].free
    ensures !NoFreeNeighbours(tiles)
  {
    assert tiles[0].free && tiles[0 + 1].free;
  }

  /** With nothing allocated, one block covers the whole heap. */
  lemma NothingLive(tiles: seq<Tile>, start: nat, end: nat)
    requires Tiling(tiles, start, end) && NoFreeNeighbours(tiles) && tiles != [] && Live(tiles) == {}
    ensures |tiles| == 1 && tiles[0].free && tiles[0].addr == start && End(tiles[0]) == end
  {
    forall i | 0 <= i < |tiles| ensures tiles[i].free {
      LiveMember(tiles, i);
    }
    if |tiles| > 1 { TwoFree(tiles); }
  }

  lemma LiveHasAddress(tiles: seq<Tile>, start: nat, end: nat, i: nat, a: Allocation)
    requires Tiling(tiles, start, end) && i < |tiles| && a in Live(tiles) && a.addr == tiles[i].addr
    ensures !tiles[i].free && a.size == tiles[i].size
  {
    var k :| 0 <= k < |tiles| && !tiles[k].free && a == Allocation(tiles[k].addr, tiles[k].size);
    if k < i { TilesOrdered(tiles, start, end, k, i); } else if i < k { TilesOrdered(tiles, start, end, i, k); }
  }

  /** The end of a free first block is where the next live block, or the end of the heap, is in any tiling. */
  lemma FirstEnds(a: seq<Tile>, b: seq<Tile>, start: nat, end: nat)
    requires Tiling(a, start, end) && Tiling(b, start, end) && NoFreeNeighbours(a) && Live(a) == Live(b)
    requires a != [] && b != [] && a[0].free
    ensures End(b[0]) <= End(a[0])
  {
    if |a| == 1 {
      TilingForward(b[1..], End(b[0]), end);
    } else {
      assert !a[0 + 1].free;
      assert Allocation(a[1].addr, a[1].size) in Live(b);
      var j :| 0 <= j < |b| && b[j].addr == a[1].addr;
      assert a[1..][0] == a[1];
      if j > 0 { TilesOrdered(b, start, end, 0, j); }
    }
  }

  lemma FirstDetermined(a: seq<Tile>, b: seq<Tile>, start: nat, end: nat)
    requires Tiling(a, start, end) && Tiling(b, start, end) && NoFreeNeighbours(a) && NoFreeNeighbours(b)
    requires Live(a) == Live(b) && a != [] && b != []
    ensures a[0] == b[0]
  {
    if !a[0].free {
      assert Allocation(a[0].addr, a[0].size) in Live(a);
      LiveHasAddress(b, start, end, 0, Allocation(a[0].addr, a[0].size));
    } else if !b[0].free {
      assert Allocation(b[0].addr, b[0].size) in Live(b);
      LiveHasAddress(a, start, end, 0, Allocation(b[0].addr, b[0].size));
    } else {
      FirstEnds(a, b, start, end);
      FirstEnds(b, a, start, end);
    }
  }

  lemma LiveTail(a: seq<Tile>, start: nat, end: nat)
    requires Tiling(a, start, end) && a != []
    ensures Live(a[1..]) == Live(a) - (if a[0].free then {} else {Allocation(a[0].addr, a[0].size)})
  {
    assert a == [a[0]] + a[1..];
    LiveConcat([a[0]], a[1..]);
    LiveElsewhere(a, start, end, 0);
    if a[0].free {
      assert Live([a[0]]) == {};
    } else {
      LiveOfBlocks(a[0], [a[0]]);
    }
  }

  /** Whatever the order of the calls, the same live allocations leave the same blocks. */
  lemma {:induction false} BlocksDetermined(a: seq<Tile>, b: seq<Tile>, start: nat, end: nat)
    requires Tiling(a, start, end) && Tiling(b, start, end) && NoFreeNeighbours(a) && NoFreeNeighbours(b)
    requires Live(a) == Live(b)
    ensures a == b
    decreases |a|
  {
    TilingForward(a, start, end);
    TilingForward(b, start, end);
    if a != [] && b != [] {
      FirstDetermined(a, b, start, end);
      LiveTail(a, start, end);
      LiveTail(b, start, end);
      BlocksDetermined(a[1..], b[1..], End(a[0]), end);
    }
  }
}
