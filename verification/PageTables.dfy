/**
 * Two-level page tables as words in physical memory, one sequence of words a frame, and the flat
 * map from page to mapping that they stand for.
 */
module PageTables {
  import opened Pmm

  const ENTRIES: nat := 1024
  const PAGE_PRESENT: nat := 1
  const PAGE_WRITABLE: nat := 2
  const PAGE_USER: nat := 4

  type Memory = seq<seq<nat>>

  datatype Mapping = Mapping(frame: nat, flags: nat)

  function Entry(mem: Memory, f: nat, j: nat): nat {
    if f < |mem| && j < |mem[f]| then mem[f][j] else 0
  }

  /** entry & PAGE_PRESENT. */
  predicate IsPresent(entry: nat) {
    entry % 2 == 1
  }

  predicate Present(mem: Memory, f: nat, j: nat) {
    IsPresent(Entry(mem, f, j))
  }

  /** The table that directory d names for its i-th 4 MiB. */
  function Table(mem: Memory, d: nat, i: nat): nat {
    Entry(mem, d, i) / PAGE_SIZE
  }

  ghost predicate Occupied(mem: Memory, t: nat) {
    exists j :: Present(mem, t, j)
  }

  ghost predicate Sized(mem: Memory) {
    forall f | 0 <= f < |mem| :: |mem[f]| == ENTRIES
  }

  /** Directory entries lo to hi - 1 name distinct tables. */
  ghost predicate Shaped(mem: Memory, d: nat, lo: nat, hi: nat) {
    && Sized(mem) && d < |mem| && hi <= ENTRIES
    && (forall i | lo <= i < hi && Present(mem, d, i) :: Table(mem, d, i) < |mem| && Table(mem, d, i) != d)
    && (forall i, j | lo <= i < j < hi && Present(mem, d, i) && Present(mem, d, j) ::
        Table(mem, d, i) != Table(mem, d, j))
  }

  /** And each of them has a present entry: a table exists exactly when it has one. */
  ghost predicate NoEmptyTable(mem: Memory, d: nat, lo: nat, hi: nat) {
    forall i | lo <= i < hi && Present(mem, d, i) :: Occupied(mem, Table(mem, d, i))
  }

  predicate Mapped(mem: Memory, d: nat, p: nat) {
    Present(mem, d, p / ENTRIES) && Present(mem, Table(mem, d, p / ENTRIES), p % ENTRIES)
  }

  function Decode(entry: nat): Mapping {
    Mapping(entry / PAGE_SIZE, entry % PAGE_SIZE)
  }

  function Leaf(mem: Memory, d: nat, p: nat): Mapping {
    Decode(Entry(mem, Table(mem, d, p / ENTRIES), p % ENTRIES))
  }

  /** What the pages of the window map to. */
  function Flat(mem: Memory, d: nat, lo: nat, hi: nat): map<nat, Mapping> {
    map p: nat | lo * ENTRIES <= p < hi * ENTRIES && Mapped(mem, d, p) :: Leaf(mem, d, p)
  }

  function Tables(mem: Memory, d: nat, lo: nat, hi: nat): set<nat> {
    set i | lo <= i < hi && Present(mem, d, i) :: Table(mem, d, i)
  }

  /** The directory and its tables. */
  function Frames(mem: Memory, d: nat, lo: nat, hi: nat): set<nat> {
    {d} + Tables(mem, d, lo, hi)
  }

  function Write(mem: Memory, f: nat, j: nat, v: nat): Memory
    requires f < |mem| && j < |mem[f]|
  {
    var row: seq<nat> := mem[f][j := v];
    mem[f := row]
  }

  lemma Written(mem: Memory, f: nat, j: nat, v: nat)
    requires f < |mem| && j < |mem[f]|
    ensures forall g, k :: Entry(Write(mem, f, j, v), g, k) == if g == f && k == j then v else Entry(mem, g, k)
    ensures |Write(mem, f, j, v)| == |mem| && (Sized(mem) ==> Sized(Write(mem, f, j, v)))
  {
  }

  /** Directory entries other than the i-th are as before. */
  ghost predicate SameDirectory(mem: Memory, mem': Memory, d: nat, i: nat) {
    |mem'| == |mem| && Sized(mem') && forall k | k != i :: Entry(mem', d, k) == Entry(mem, d, k)
  }

  lemma ShapeKept(mem: Memory, mem': Memory, d: nat, i: nat, lo: nat, hi: nat)
    requires Shaped(mem, d, lo, hi) && SameDirectory(mem, mem', d, i) && lo <= i < hi
    requires Present(mem', d, i) ==>
               Table(mem', d, i) < |mem| && Table(mem', d, i) != d &&
               forall k | lo <= k < hi && k != i && Present(mem, d, k) :: Table(mem, d, k) != Table(mem', d, i)
    ensures Shaped(mem', d, lo, hi)
    ensures Tables(mem', d, lo, hi) ==
            (set k | lo <= k < hi && k != i && Present(mem, d, k) :: Table(mem, d, k)) +
            if Present(mem', d, i) then {Table(mem', d, i)} else {}
  {
    hide Entry, Occupied;
    assert forall k | k != i :: Present(mem', d, k) == Present(mem, d, k) && Table(mem', d, k) == Table(mem, d, k);
    assert Tables(mem', d, lo, hi) ==
           (set k | lo <= k < hi && k != i && Present(mem', d, k) :: Table(mem', d, k)) +
           if Present(mem', d, i) then {Table(mem', d, i)} else {};
  }

  // ----- attaching a table, writing one of its entries, detaching it -----

  lemma AttachKeeps(mem: Memory, d: nat, i: nat, entry: nat, lo: nat, hi: nat)
    requires Shaped(mem, d, lo, hi) && lo <= i < hi && !Present(mem, d, i) && IsPresent(entry)
    requires entry / PAGE_SIZE < |mem| && entry / PAGE_SIZE != d && entry / PAGE_SIZE !in Tables(mem, d, lo, hi)
    requires !Occupied(mem, entry / PAGE_SIZE)
    ensures var mem' := Write(mem, d, i, entry);
            && Shaped(mem', d, lo, hi) && Flat(mem', d, lo, hi) == Flat(mem, d, lo, hi)
            && Tables(mem', d, lo, hi) == Tables(mem, d, lo, hi) + {entry / PAGE_SIZE}
  {
    var mem' := Write(mem, d, i, entry);
    hide Write, Entry;
    Written(mem, d, i, entry);
    ShapeKept(mem, mem, d, i, lo, hi);
    ShapeKept(mem, mem', d, i, lo, hi);
    forall p: nat | lo * ENTRIES <= p < hi * ENTRIES
      ensures Mapped(mem', d, p) <==> Mapped(mem, d, p)
      ensures Mapped(mem, d, p) ==> Leaf(mem', d, p) == Leaf(mem, d, p)
    {
      if p / ENTRIES == i {
        assert !Present(mem, entry / PAGE_SIZE, p % ENTRIES);
      }
    }
  }

  lemma DetachKeeps(mem: Memory, d: nat, i: nat, lo: nat, hi: nat)
    requires Shaped(mem, d, lo, hi) && lo <= i < hi && Present(mem, d, i) && !Occupied(mem, Table(mem, d, i))
    ensures var mem' := Write(mem, d, i, 0);
            && Shaped(mem', d, lo, hi) && Flat(mem', d, lo, hi) == Flat(mem, d, lo, hi)
            && Tables(mem', d, lo, hi) == Tables(mem, d, lo, hi) - {Table(mem, d, i)}
  {
    var mem' := Write(mem, d, i, 0);
    hide Write, Entry;
    Written(mem, d, i, 0);
    ShapeKept(mem, mem, d, i, lo, hi);
    ShapeKept(mem, mem', d, i, lo, hi);
    forall p: nat | lo * ENTRIES <= p < hi * ENTRIES
      ensures Mapped(mem', d, p) <==> Mapped(mem, d, p)
      ensures Mapped(mem, d, p) ==> Leaf(mem', d, p) == Leaf(mem, d, p)
    {
      if p / ENTRIES == i {
        assert !Present(mem, Table(mem, d, i), p % ENTRIES);
      }
    }
  }

  lemma SplitPage(p: nat, i: nat, j: nat)
    requires j < ENTRIES
    ensures p / ENTRIES == i && p % ENTRIES == j <==> p == i * ENTRIES + j
  {
  }

  lemma OtherLeaf(mem: Memory, d: nat, i: nat, j: nat, entry: nat, lo: nat, hi: nat, p: nat)
    requires Shaped(mem, d, lo, hi) && lo <= i < hi && Present(mem, d, i) && j < ENTRIES
    requires lo <= p / ENTRIES < hi && p != i * ENTRIES + j
    ensures SameLeaf(mem, Write(mem, Table(mem, d, i), j, entry), d, p)
  {
    hide Write, Entry, Occupied;
    Written(mem, Table(mem, d, i), j, entry);
    SplitPage(p, i, j);
  }

  lemma WriteEntryShape(mem: Memory, d: nat, i: nat, j: nat, entry: nat, lo: nat, hi: nat)
    requires Shaped(mem, d, lo, hi) && lo <= i < hi && Present(mem, d, i) && j < ENTRIES
    ensures var mem' := Write(mem, Table(mem, d, i), j, entry);
            Shaped(mem', d, lo, hi) && Tables(mem', d, lo, hi) == Tables(mem, d, lo, hi)
  {
    hide Write, Entry, Occupied;
    var mem' := Write(mem, Table(mem, d, i), j, entry);
    Written(mem, Table(mem, d, i), j, entry);
    ShapeKept(mem, mem, d, i, lo, hi);
    ShapeKept(mem, mem', d, i, lo, hi);
  }

  lemma WriteEntryKeeps(mem: Memory, d: nat, i: nat, j: nat, entry: nat, lo: nat, hi: nat)
    requires Shaped(mem, d, lo, hi) && lo <= i < hi && Present(mem, d, i) && j < ENTRIES
    ensures var mem' := Write(mem, Table(mem, d, i), j, entry);
            && Shaped(mem', d, lo, hi) && Tables(mem', d, lo, hi) == Tables(mem, d, lo, hi)
            && Flat(mem', d, lo, hi) == if IsPresent(entry) then Flat(mem, d, lo, hi)[i * ENTRIES + j := Decode(entry)]
                                        else Flat(mem, d, lo, hi) - {i * ENTRIES + j}
  {
    hide Write, Entry, Occupied, SameLeaf, Mapped, Leaf, Flat, Shaped, Tables;
    ShapedBounds(mem, d, lo, hi);
    var mem' := Write(mem, Table(mem, d, i), j, entry);
    WriteEntryShape(mem, d, i, j, entry, lo, hi);
    WrittenLeaf(mem, d, i, j, entry, lo, hi);
    forall p: nat | lo * ENTRIES <= p < hi * ENTRIES && p != i * ENTRIES + j
      ensures SameLeaf(mem, mem', d, p)
    {
      OtherLeaf(mem, d, i, j, entry, lo, hi, p);
    }
    FlatChanged(mem, mem', d, lo, hi, i * ENTRIES + j);
  }

  predicate SameLeaf(mem: Memory, mem': Memory, d: nat, p: nat) {
    (Mapped(mem', d, p) <==> Mapped(mem, d, p)) && (Mapped(mem, d, p) ==> Leaf(mem', d, p) == Leaf(mem, d, p))
  }

  lemma FlatChanged(mem: Memory, mem': Memory, d: nat, lo: nat, hi: nat, page: nat)
    requires lo * ENTRIES <= page < hi * ENTRIES
    requires forall p: nat | lo * ENTRIES <= p < hi * ENTRIES && p != page :: SameLeaf(mem, mem', d, p)
    ensures Flat(mem', d, lo, hi) == if Mapped(mem', d, page) then Flat(mem, d, lo, hi)[page := Leaf(mem', d, page)]
                                     else Flat(mem, d, lo, hi) - {page}
  {
    hide Mapped, Leaf;
    assert forall p: nat | lo * ENTRIES <= p < hi * ENTRIES && p != page ::
             SameLeaf(mem, mem', d, p) && (Mapped(mem', d, p) <==> Mapped(mem, d, p));
  }

  lemma WrittenLeaf(mem: Memory, d: nat, i: nat, j: nat, entry: nat, lo: nat, hi: nat)
    requires Shaped(mem, d, lo, hi) && lo <= i < hi && Present(mem, d, i) && j < ENTRIES
    ensures var mem' := Write(mem, Table(mem, d, i), j, entry);
            && Mapped(mem', d, i * ENTRIES + j) == IsPresent(entry)
            && Leaf(mem', d, i * ENTRIES + j) == Decode(entry)
  {
    hide Write, Entry, Occupied;
    Written(mem, Table(mem, d, i), j, entry);
    SplitPage(i * ENTRIES + j, i, j);
  }

  // ----- which tables have an entry -----

  /** Writing a present entry fills its table; the other tables are as occupied as before. */
  lemma OccupiedAfter(mem: Memory, t: nat, j: nat, entry: nat)
    requires t < |mem| && j < |mem[t]|
    ensures var mem' := Write(mem, t, j, entry);
            (IsPresent(entry) ==> Occupied(mem', t)) && forall u | u != t :: Occupied(mem', u) == Occupied(mem, u)
  {
    var mem' := Write(mem, t, j, entry);
    hide Write, Entry;
    Written(mem, t, j, entry);
    assert IsPresent(entry) ==> Present(mem', t, j);
    assert forall u, k | u != t :: Present(mem', u, k) == Present(mem, u, k);
  }

  /** In terms of the flat map: a table has an entry exactly when a page of its 4 MiB is mapped. */
  lemma OccupiedMeansMapped(mem: Memory, d: nat, i: nat, lo: nat, hi: nat)
    requires Shaped(mem, d, lo, hi) && lo <= i < hi && Present(mem, d, i)
    ensures Occupied(mem, Table(mem, d, i)) <==> exists p :: p in Flat(mem, d, lo, hi) && p / ENTRIES == i
  {
    hide Leaf;
    if Occupied(mem, Table(mem, d, i)) {
      var j :| Present(mem, Table(mem, d, i), j);
      SplitPage(i * ENTRIES + j, i, j);
      assert i * ENTRIES + j in Flat(mem, d, lo, hi);
    }
  }

  /** Between the allocation of the table `but` and the writing of its first entry. */
  ghost predicate NoEmptyTableBut(mem: Memory, d: nat, lo: nat, hi: nat, but: nat) {
    forall i | lo <= i < hi && i != but && Present(mem, d, i) :: Occupied(mem, Table(mem, d, i))
  }

  function Zeroed(): (words: seq<nat>)
    ensures |words| == 1024 && forall j | 0 <= j < 1024 :: words[j] == 0
  {
    seq(ENTRIES, _ => 0)
  }

  // ----- an address space depends on its own frames only -----

  ghost predicate SameFrames(mem: Memory, mem': Memory, frames: set<nat>) {
    |mem'| == |mem| && Sized(mem') && forall f | f in frames :: f < |mem| && mem'[f] == mem[f]
  }

  lemma SameEntries(mem: Memory, mem': Memory, frames: set<nat>)
    requires SameFrames(mem, mem', frames)
    ensures forall f, j | f in frames :: Entry(mem', f, j) == Entry(mem, f, j)
    ensures forall f, j | f in frames :: Present(mem', f, j) == Present(mem, f, j)
    ensures forall f | f in frames :: Occupied(mem', f) == Occupied(mem, f)
  {
    assert forall f, j | f in frames :: Present(mem', f, j) == Present(mem, f, j);
  }

  lemma TableInFrames(mem: Memory, d: nat, lo: nat, hi: nat)
    ensures d in Frames(mem, d, lo, hi)
    ensures forall i | lo <= i < hi && Present(mem, d, i) :: Table(mem, d, i) in Frames(mem, d, lo, hi)
  {
  }

  lemma FramesMatter(mem: Memory, mem': Memory, d: nat, lo: nat, hi: nat)
    requires Shaped(mem, d, lo, hi) && SameFrames(mem, mem', Frames(mem, d, lo, hi))
    ensures Shaped(mem', d, lo, hi) && Flat(mem', d, lo, hi) == Flat(mem, d, lo, hi)
    ensures Tables(mem', d, lo, hi) == Tables(mem, d, lo, hi)
    ensures forall i :: Present(mem', d, i) == Present(mem, d, i) && Table(mem', d, i) == Table(mem, d, i)
    ensures forall i | lo <= i < hi && Present(mem, d, i) ::
              Occupied(mem', Table(mem, d, i)) == Occupied(mem, Table(mem, d, i))
  {
    hide Entry, Occupied, Frames, Tables;
    SameEntries(mem, mem', Frames(mem, d, lo, hi));
    TableInFrames(mem, d, lo, hi);
    assert forall i :: Present(mem', d, i) == Present(mem, d, i) && Table(mem', d, i) == Table(mem, d, i);
    TablesAgree(mem, mem', d, lo, hi);
  }

  lemma TablesAgree(mem: Memory, mem': Memory, d: nat, lo: nat, hi: nat)
    requires forall i :: Present(mem', d, i) == Present(mem, d, i) && Table(mem', d, i) == Table(mem, d, i)
    ensures Tables(mem', d, lo, hi) == Tables(mem, d, lo, hi)
  {
    hide Present, Table;
  }

  /** A zeroed frame t becomes the i-th table of d. */
  lemma NewTable(mem: Memory, d: nat, i: nat, t: nat, entry: nat, lo: nat, hi: nat)
    requires Shaped(mem, d, lo, hi) && NoEmptyTable(mem, d, lo, hi) && lo <= i < hi && !Present(mem, d, i)
    requires t < |mem| && t !in Frames(mem, d, lo, hi) && IsPresent(entry) && entry / PAGE_SIZE == t
    ensures var mem' := Write(mem[t := Zeroed()], d, i, entry);
            && Shaped(mem', d, lo, hi) && NoEmptyTableBut(mem', d, lo, hi, i)
            && Present(mem', d, i) && Table(mem', d, i) == t
            && Flat(mem', d, lo, hi) == Flat(mem, d, lo, hi)
            && Tables(mem', d, lo, hi) == Tables(mem, d, lo, hi) + {t}
  {
    var mem1 := mem[t := Zeroed()];
    FramesMatter(mem, mem1, d, lo, hi);
    assert forall j :: !Present(mem1, t, j);
    AttachKeeps(mem1, d, i, entry, lo, hi);
    OccupiedAfter(mem1, d, i, entry);
    Written(mem1, d, i, entry);
    hide Entry, Flat, Tables, Write;
    var mem' := Write(mem1, d, i, entry);
    forall k | lo <= k < hi && k != i && Present(mem', d, k) ensures Occupied(mem', Table(mem', d, k)) {
      assert Present(mem, d, k) && Table(mem', d, k) == Table(mem, d, k);
    }
  }

  lemma EntryMapped(mem: Memory, d: nat, i: nat, j: nat, entry: nat, lo: nat, hi: nat)
    requires Shaped(mem, d, lo, hi) && NoEmptyTableBut(mem, d, lo, hi, i) && lo <= i < hi && Present(mem, d, i)
    requires j < ENTRIES && IsPresent(entry)
    ensures var mem' := Write(mem, Table(mem, d, i), j, entry);
            && Shaped(mem', d, lo, hi) && NoEmptyTable(mem', d, lo, hi)
            && Flat(mem', d, lo, hi) == Flat(mem, d, lo, hi)[i * ENTRIES + j := Decode(entry)]
            && Tables(mem', d, lo, hi) == Tables(mem, d, lo, hi)
  {
    hide Write, Flat, Entry, Occupied;
    var t := Table(mem, d, i);
    WriteEntryKeeps(mem, d, i, j, entry, lo, hi);
    OccupiedAfter(mem, t, j, entry);
    Written(mem, t, j, entry);
    var mem' := Write(mem, t, j, entry);
    forall k | lo <= k < hi && Present(mem', d, k) ensures Occupied(mem', Table(mem', d, k)) {
      assert Present(mem, d, k) && Table(mem', d, k) == Table(mem, d, k);
    }
  }

  lemma EntryUnmapped(mem: Memory, d: nat, i: nat, j: nat, lo: nat, hi: nat)
    requires Shaped(mem, d, lo, hi) && NoEmptyTable(mem, d, lo, hi) && lo <= i < hi && Present(mem, d, i) && j < ENTRIES
    ensures var mem' := Write(mem, Table(mem, d, i), j, 0);
            && Shaped(mem', d, lo, hi) && NoEmptyTableBut(mem', d, lo, hi, i)
            && Flat(mem', d, lo, hi) == Flat(mem, d, lo, hi) - {i * ENTRIES + j}
            && Tables(mem', d, lo, hi) == Tables(mem, d, lo, hi)
            && Present(mem', d, i) && Table(mem', d, i) == Table(mem, d, i)
  {
    hide Write, Flat, Entry, Occupied;
    var t := Table(mem, d, i);
    WriteEntryKeeps(mem, d, i, j, 0, lo, hi);
    OccupiedAfter(mem, t, j, 0);
    Written(mem, t, j, 0);
    var mem' := Write(mem, t, j, 0);
    forall k | lo <= k < hi && k != i && Present(mem', d, k) ensures Occupied(mem', Table(mem', d, k)) {
      assert Present(mem, d, k) && Table(mem', d, k) == Table(mem, d, k);
    }
  }

  lemma TableDropped(mem: Memory, d: nat, i: nat, lo: nat, hi: nat)
    requires Shaped(mem, d, lo, hi) && NoEmptyTableBut(mem, d, lo, hi, i) && lo <= i < hi && Present(mem, d, i)
    requires !Occupied(mem, Table(mem, d, i))
    ensures var mem' := Write(mem, d, i, 0);
            && Shaped(mem', d, lo, hi) && NoEmptyTable(mem', d, lo, hi)
            && Flat(mem', d, lo, hi) == Flat(mem, d, lo, hi)
            && Tables(mem', d, lo, hi) == Tables(mem, d, lo, hi) - {Table(mem, d, i)}
  {
    hide Write, Flat, Entry, Occupied;
    DetachKeeps(mem, d, i, lo, hi);
    OccupiedAfter(mem, d, i, 0);
    Written(mem, d, i, 0);
    var mem' := Write(mem, d, i, 0);
    forall k | lo <= k < hi && Present(mem', d, k) ensures Occupied(mem', Table(mem', d, k)) {
      assert Present(mem, d, k) && Table(mem', d, k) == Table(mem, d, k);
    }
  }

  lemma ShapedBounds(mem: Memory, d: nat, lo: nat, hi: nat)
    requires Shaped(mem, d, lo, hi)
    ensures d < |mem| && |mem[d]| == ENTRIES && hi <= ENTRIES
    ensures forall i | lo <= i < hi ::
              mem[d][i] == Entry(mem, d, i) && (IsPresent(mem[d][i]) <==> Present(mem, d, i)) &&
              (Present(mem, d, i) ==>
                  Table(mem, d, i) == mem[d][i] / PAGE_SIZE < |mem| && |mem[Table(mem, d, i)]| == ENTRIES)
  {
  }

  lemma WeakerThanNoEmptyTable(mem: Memory, d: nat, lo: nat, hi: nat, but: nat)
    requires NoEmptyTable(mem, d, lo, hi)
    ensures NoEmptyTableBut(mem, d, lo, hi, but)
  {
  }

  lemma NoTableNotMapped(mem: Memory, d: nat, p: nat, lo: nat, hi: nat)
    requires !Present(mem, d, p / ENTRIES)
    ensures p !in Flat(mem, d, lo, hi)
  {
  }

  // ----- frames taken and given back -----

  /** Frames outside `frames` hold what they held. */
  ghost predicate Untouched(mem: Memory, mem': Memory, frames: set<nat>) {
    |mem'| == |mem| && forall f | 0 <= f < |mem| && f !in frames :: mem'[f] == mem[f]
  }

  /** A table is taken from the free frames if directory index i needs one and one can be had. */
  ghost predicate TableTaken(mem: Memory, mem': Memory, free: set<nat>, free': set<nat>, can: bool,
                             d: nat, i: nat, lo: nat, hi: nat)
  {
    var taken := free - free';
    var pool := free' <= free && |taken| == if !Present(mem, d, i) && can then 1 else 0;
    var tables := Tables(mem', d, lo, hi) == Tables(mem, d, lo, hi) + taken;
    var rest := Untouched(mem, mem', Frames(mem, d, lo, hi) + taken);
    var entries := forall k | k != i || Present(mem, d, k) :: Entry(mem', d, k) == Entry(mem, d, k);
    pool && tables && rest && entries
  }

  lemma NothingTaken(mem: Memory, free: set<nat>, can: bool, d: nat, i: nat, lo: nat, hi: nat)
    requires Present(mem, d, i) || !can
    ensures TableTaken(mem, mem, free, free, can, d, i, lo, hi)
  {
    assert free - free == {};
  }

  lemma OneTaken(mem: Memory, free: set<nat>, t: nat, entry: nat, d: nat, i: nat, lo: nat, hi: nat)
    requires Shaped(mem, d, lo, hi) && NoEmptyTable(mem, d, lo, hi) && lo <= i < hi && !Present(mem, d, i)
    requires t in free && t < |mem| && t !in Frames(mem, d, lo, hi) && IsPresent(entry) && entry / PAGE_SIZE == t
    ensures TableTaken(mem, Write(mem[t := Zeroed()], d, i, entry), free, free - {t}, true, d, i, lo, hi)
  {
    hide Flat, Tables, Shaped, Occupied, Write, NoEmptyTable, NoEmptyTableBut, Entry, Zeroed;
    ShapedBounds(mem, d, lo, hi);
    TableInFrames(mem, d, lo, hi);
    NewTable(mem, d, i, t, entry, lo, hi);
    OnlyRow(mem, t, Zeroed());
    OnlyWord(mem[t := Zeroed()], d, i, entry);
    assert free - (free - {t}) == {t};
  }

  lemma OnlyRow(mem: Memory, f: nat, row: seq<nat>)
    requires f < |mem|
    ensures Untouched(mem, mem[f := row], {f})
    ensures forall g, k | g != f :: Entry(mem[f := row], g, k) == Entry(mem, g, k)
  {
  }

  lemma OnlyWord(mem: Memory, f: nat, j: nat, v: nat)
    requires f < |mem| && j < |mem[f]|
    ensures Untouched(mem, Write(mem, f, j, v), {f}) && Entry(Write(mem, f, j, v), f, j) == v
    ensures forall k | k != j :: Entry(Write(mem, f, j, v), f, k) == Entry(mem, f, k)
    ensures forall g, k | g != f :: Entry(Write(mem, f, j, v), g, k) == Entry(mem, g, k)
  {
  }

  lemma EntryWrittenTaken(mem0: Memory, mem: Memory, free: set<nat>, free': set<nat>, can: bool,
                          d: nat, i: nat, j: nat, entry: nat, lo: nat, hi: nat)
    requires TableTaken(mem0, mem, free, free', can, d, i, lo, hi)
    requires Shaped(mem, d, lo, hi) && NoEmptyTableBut(mem, d, lo, hi, i) && lo <= i < hi && Present(mem, d, i)
    requires j < ENTRIES
    ensures TableTaken(mem0, Write(mem, Table(mem, d, i), j, entry), free, free', can, d, i, lo, hi)
  {
    hide Flat, Occupied, NoEmptyTableBut, Write, TableTaken, Shaped, Tables, Entry;
    ShapedBounds(mem, d, lo, hi);
    NotOwnTable(mem, d, i, lo, hi);
    var mem' := Write(mem, Table(mem, d, i), j, entry);
    WriteEntryKeeps(mem, d, i, j, entry, lo, hi);
    OnlyWord(mem, Table(mem, d, i), j, entry);
    TakenCarries(mem0, mem, mem', free, free', can, d, i, Table(mem, d, i), lo, hi);
  }

  /** Nothing but table t is written after the table was taken. */
  lemma TakenCarries(mem0: Memory, mem: Memory, mem': Memory, free: set<nat>, free': set<nat>, can: bool,
                     d: nat, i: nat, t: nat, lo: nat, hi: nat)
    requires TableTaken(mem0, mem, free, free', can, d, i, lo, hi) && Untouched(mem, mem', {t})
    requires t in Tables(mem, d, lo, hi) && Tables(mem', d, lo, hi) == Tables(mem, d, lo, hi)
    requires forall k :: Entry(mem', d, k) == Entry(mem, d, k)
    ensures TableTaken(mem0, mem', free, free', can, d, i, lo, hi)
  {
    hide Tables, Entry, Present;
  }

  /** A table whose last entry goes is given back; nothing else is. */
  ghost predicate TableGiven(mem: Memory, mem': Memory, free: set<nat>, free': set<nat>,
                             d: nat, i: nat, lo: nat, hi: nat)
  {
    var given := Tables(mem, d, lo, hi) - Tables(mem', d, lo, hi);
    var tables := Tables(mem', d, lo, hi) <= Tables(mem, d, lo, hi);
    var pool := free' == free + given;
    var rest := Untouched(mem, mem', Frames(mem, d, lo, hi));
    var entries := forall k | k != i || Present(mem', d, k) :: Entry(mem', d, k) == Entry(mem, d, k);
    tables && pool && rest && entries
  }

  lemma NothingGiven(mem: Memory, free: set<nat>, d: nat, i: nat, lo: nat, hi: nat)
    ensures TableGiven(mem, mem, free, free, d, i, lo, hi)
  {
    assert free + {} == free;
  }

  lemma EntryClearedGiven(mem: Memory, free: set<nat>, d: nat, i: nat, j: nat, lo: nat, hi: nat)
    requires Shaped(mem, d, lo, hi) && NoEmptyTable(mem, d, lo, hi) && lo <= i < hi && Present(mem, d, i) && j < ENTRIES
    ensures TableGiven(mem, Write(mem, Table(mem, d, i), j, 0), free, free, d, i, lo, hi)
  {
    hide Flat, Occupied, NoEmptyTable, NoEmptyTableBut, Write, Shaped, Tables, Entry;
    EntryUnmapped(mem, d, i, j, lo, hi);
    TableInFrames(mem, d, lo, hi);
    ShapedBounds(mem, d, lo, hi);
    OnlyWord(mem, Table(mem, d, i), j, 0);
    NotOwnTable(mem, d, i, lo, hi);
  }

  lemma NotOwnTable(mem: Memory, d: nat, i: nat, lo: nat, hi: nat)
    requires Shaped(mem, d, lo, hi) && lo <= i < hi && Present(mem, d, i)
    ensures Table(mem, d, i) != d && Table(mem, d, i) in Tables(mem, d, lo, hi) && d !in Tables(mem, d, lo, hi)
  {
  }

  lemma TableDroppedGiven(mem0: Memory, mem: Memory, free: set<nat>, d: nat, i: nat, lo: nat, hi: nat)
    requires TableGiven(mem0, mem, free, free, d, i, lo, hi) && Tables(mem0, d, lo, hi) == Tables(mem, d, lo, hi)
    requires Shaped(mem, d, lo, hi) && NoEmptyTableBut(mem, d, lo, hi, i) && lo <= i < hi && Present(mem, d, i)
    requires !Occupied(mem, Table(mem, d, i))
    ensures TableGiven(mem0, Write(mem, d, i, 0), free, free + {Table(mem, d, i)}, d, i, lo, hi)
  {
    hide Flat, Occupied, NoEmptyTable, NoEmptyTableBut, Write, Shaped, Tables, Entry;
    TableDropped(mem, d, i, lo, hi);
    TableInFrames(mem, d, lo, hi);
    ShapedBounds(mem, d, lo, hi);
    OnlyWord(mem, d, i, 0);
    NotOwnTable(mem, d, i, lo, hi);
  }

  // ----- the frames that a whole address space uses -----

  /** Frames mapped at pages a to b - 1. */
  function LeafFrames(mem: Memory, d: nat, a: nat, b: nat): set<nat> {
    set p: nat | a <= p < b && Mapped(mem, d, p) :: Leaf(mem, d, p).frame
  }

  lemma LeafFramesStep(mem: Memory, d: nat, a: nat, p: nat)
    requires a <= p
    ensures LeafFrames(mem, d, a, p + 1) ==
            LeafFrames(mem, d, a, p) + if Mapped(mem, d, p) then {Leaf(mem, d, p).frame} else {}
  {
    hide Mapped, Leaf;
  }

  lemma LeafFramesSplit(mem: Memory, d: nat, a: nat, b: nat)
    requires a <= b
    ensures LeafFrames(mem, d, 0, b) == LeafFrames(mem, d, 0, a) + LeafFrames(mem, d, a, b)
  {
    hide Mapped, Leaf;
  }

  lemma NoTableNoLeaves(mem: Memory, d: nat, i: nat)
    requires !Present(mem, d, i)
    ensures LeafFrames(mem, d, i * ENTRIES, (i + 1) * ENTRIES) == {}
  {
    hide Leaf, Present;
    forall p: nat | i * ENTRIES <= p < (i + 1) * ENTRIES ensures !Mapped(mem, d, p) {
      assert p / ENTRIES == i;
    }
  }

  lemma TablesStep(mem: Memory, d: nat, i: nat)
    ensures Tables(mem, d, 0, i + 1) == Tables(mem, d, 0, i) + if Present(mem, d, i) then {Table(mem, d, i)} else {}
  {
    hide Present, Table;
  }

  /** The mapped frames are apart from `frames`, and each is mapped once. */
  ghost predicate Private(flat: map<nat, Mapping>, frames: set<nat>) {
    && (forall p | p in flat :: flat[p].frame !in frames)
    && (forall p, q | p in flat && q in flat && p != q :: flat[p].frame != flat[q].frame)
  }

  /** The frames mapped are private to the address space, each to one page. */
  ghost predicate PrivateLeaves(mem: Memory, d: nat, lo: nat, hi: nat) {
    Private(Flat(mem, d, lo, hi), Frames(mem, d, lo, hi))
  }

  function FlatFrames(flat: map<nat, Mapping>): set<nat> {
    set p | p in flat :: flat[p].frame
  }

  lemma LeafFramesAreValues(mem: Memory, d: nat, hi: nat)
    ensures LeafFrames(mem, d, 0, hi * ENTRIES) == FlatFrames(Flat(mem, d, 0, hi))
  {
    hide Mapped, Leaf;
    var flat := Flat(mem, d, 0, hi);
    forall p: nat | p < hi * ENTRIES && Mapped(mem, d, p) ensures Leaf(mem, d, p).frame in FlatFrames(flat) {
      assert p in flat;
    }
  }

  lemma {:induction false} DistinctValues(flat: map<nat, Mapping>)
    requires forall p, q | p in flat && q in flat && p != q :: flat[p].frame != flat[q].frame
    ensures |FlatFrames(flat)| == |flat|
    decreases |flat|
  {
    if flat.Keys != {} {
      var p :| p in flat;
      var rest := flat - {p};
      assert rest.Keys == flat.Keys - {p};
      DistinctValues(rest);
      forall q | q in flat && q != p ensures flat[q].frame in FlatFrames(rest) {
        assert q in rest;
      }
      assert FlatFrames(flat) == FlatFrames(rest) + {flat[p].frame};
      assert flat[p].frame !in FlatFrames(rest);
      assert |flat.Keys| == |flat| && |rest.Keys| == |rest|;
    }
  }

  /** The j-th word of the i-th table is the entry of page i * ENTRIES + j. */
  lemma TableWord(mem: Memory, d: nat, i: nat, j: nat)
    requires Present(mem, d, i) && Table(mem, d, i) < |mem| && |mem[Table(mem, d, i)]| == ENTRIES && j < ENTRIES
    ensures var e, p := mem[Table(mem, d, i)][j], i * ENTRIES + j;
            && (Mapped(mem, d, p) <==> IsPresent(e)) && Leaf(mem, d, p) == Decode(e)
            && (IsPresent(e) ==> e / PAGE_SIZE in LeafFrames(mem, d, i * ENTRIES, (i + 1) * ENTRIES))
            && LeafFrames(mem, d, i * ENTRIES, p + 1) ==
               LeafFrames(mem, d, i * ENTRIES, p) + if IsPresent(e) then {e / PAGE_SIZE} else {}
  {
    SplitPage(i * ENTRIES + j, i, j);
    LeafFramesStep(mem, d, i * ENTRIES, i * ENTRIES + j);
    assert Mapped(mem, d, i * ENTRIES + j) ==>
             Leaf(mem, d, i * ENTRIES + j).frame in LeafFrames(mem, d, i * ENTRIES, (i + 1) * ENTRIES);
  }

  lemma LaterTable(mem: Memory, d: nat, i: nat, hi: nat)
    requires Shaped(mem, d, 0, hi) && i < hi && Present(mem, d, i)
    ensures Table(mem, d, i) !in {d} + Tables(mem, d, 0, i)
    ensures Table(mem, d, i) in Tables(mem, d, 0, hi)
    ensures LeafFrames(mem, d, i * ENTRIES, (i + 1) * ENTRIES) <= LeafFrames(mem, d, 0, hi * ENTRIES)
  {
    hide Mapped, Leaf;
  }

  // ----- destroying an address space table by table -----

  /** After i rounds: the first i tables and their pages are free, and only those and the directory were touched. */
  ghost predicate DestroyedBy(mem: Memory, now: Memory, free: set<nat>, freeNow: set<nat>, d: nat, i: nat) {
    d < |mem| == |now| && |mem[d]| == ENTRIES == |now[d]| &&
    var rest := Untouched(mem, now, {d} + Tables(mem, d, 0, i));
    var entries := forall k | i <= k < ENTRIES :: now[d][k] == mem[d][k];
    var pool := freeNow == free + LeafFrames(mem, d, 0, i * ENTRIES) + Tables(mem, d, 0, i);
    rest && entries && pool
  }

  lemma DestroyedNothing(mem: Memory, free: set<nat>, d: nat)
    requires d < |mem| && |mem[d]| == ENTRIES
    ensures DestroyedBy(mem, mem, free, free, d, 0)
  {
    assert LeafFrames(mem, d, 0, 0) == {} && Tables(mem, d, 0, 0) == {};
  }

  lemma DestroyedAll(mem: Memory, now: Memory, free: set<nat>, freeNow: set<nat>, d: nat, hi: nat)
    requires DestroyedBy(mem, now, free, freeNow, d, hi)
    ensures Untouched(mem, now, Frames(mem, d, 0, hi))
    ensures freeNow == free + LeafFrames(mem, d, 0, hi * ENTRIES) + Tables(mem, d, 0, hi)
  {
    hide Tables, LeafFrames;
  }

  lemma DestroyedNoTable(mem: Memory, now: Memory, free: set<nat>, freeNow: set<nat>, d: nat, i: nat)
    requires DestroyedBy(mem, now, free, freeNow, d, i) && !Present(mem, d, i)
    ensures DestroyedBy(mem, now, free, freeNow, d, i + 1)
  {
    hide LeafFrames, Tables, Table, Present;
    TablesStep(mem, d, i);
    LeafFramesSplit(mem, d, i * ENTRIES, (i + 1) * ENTRIES);
    NoTableNoLeaves(mem, d, i);
  }

  lemma DestroyedOneTable(mem: Memory, now: Memory, now1: Memory, free: set<nat>, freeNow: set<nat>, free1: set<nat>,
                          d: nat, i: nat, t: nat)
    requires DestroyedBy(mem, now, free, freeNow, d, i) && Present(mem, d, i) && t == Table(mem, d, i) && t != d
    requires Untouched(now, now1, {t}) && i < ENTRIES
    requires free1 == freeNow + LeafFrames(mem, d, i * ENTRIES, (i + 1) * ENTRIES) + {t}
    ensures DestroyedBy(mem, Write(now1, d, i, 0), free, free1, d, i + 1)
  {
    hide LeafFrames, Tables, Table, Present;
    TablesStep(mem, d, i);
    LeafFramesSplit(mem, d, i * ENTRIES, (i + 1) * ENTRIES);
    assert now1[d] == now[d];
    UnionMiddle(free, LeafFrames(mem, d, 0, i * ENTRIES), Tables(mem, d, 0, i),
                LeafFrames(mem, d, i * ENTRIES, (i + 1) * ENTRIES), {t});
  }

  lemma UnionMiddle(free: set<nat>, leaves: set<nat>, tables: set<nat>, more: set<nat>, t: set<nat>)
    ensures free + leaves + tables + more + t == free + (leaves + more) + (tables + t)
  {
  }
}
