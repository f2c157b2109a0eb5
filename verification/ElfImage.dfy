/**
 * ELF executables as elf_loader.c reads them, and the pages that loading one comes to. The format is
 * that of "Program Header", Part 2 of the TIS ELF specification, version 1.2.
 */
module ElfImage {
  import opened Sequences
  import opened Bytes
  import opened Pmm
  import opened PageTables

  const HEADER_SIZE: nat := 52
  const PROGRAM_HEADER_SIZE: nat := 32
  const PT_LOAD: nat := 1
  const USER_PAGES: nat := 768 * 1024              // pages below 0xC0000000

  // ----- elf_validate -----

  /** e_type is ET_EXEC, e_machine is EM_386, and the program headers lie within the image. */
  predicate Valid(image: seq<byte>) {
    && |image| >= HEADER_SIZE
    && image[0] == 0x7F && image[1] == 0x45 && image[2] == 0x4C && image[3] == 0x46
    && image[4] == 1 && image[5] == 1
    && Le16(image, 16) == 2 && Le16(image, 18) == 3
    && Le16(image, 42) == PROGRAM_HEADER_SIZE && Le16(image, 44) != 0
    && Le32(image, 28) <= |image| && Le16(image, 44) * PROGRAM_HEADER_SIZE <= |image| - Le32(image, 28)
  }

  /** The chain of checks of elf_validate accepts an image only if all its program headers can be read. */
  method Validate(image: seq<byte>) returns (valid: bool)
    ensures valid <==> Valid(image)
    ensures valid ==> forall i | 0 <= i < HeaderCount(image) :: HeaderAt(image, i) + PROGRAM_HEADER_SIZE <= |image|
  {
    if |image| < HEADER_SIZE { return false; }
    if image[0] != 0x7F || image[1] != 0x45 || image[2] != 0x4C || image[3] != 0x46 { return false; }
    if image[4] != 1 { return false; }
    if image[5] != 1 { return false; }
    if Le16(image, 16) != 2 { return false; }
    if Le16(image, 18) != 3 { return false; }
    if Le16(image, 42) != PROGRAM_HEADER_SIZE { return false; }
    if Le16(image, 44) == 0 { return false; }
    if Le32(image, 28) > |image| { return false; }
    if Le16(image, 44) * PROGRAM_HEADER_SIZE > |image| - Le32(image, 28) { return false; }
    HeadersInside(image);
    return true;
  }

  lemma HeadersInside(image: seq<byte>)
    requires Valid(image)
    ensures forall i | 0 <= i < HeaderCount(image) :: HeaderAt(image, i) + PROGRAM_HEADER_SIZE <= |image|
  {
  }

  function HeaderCount(image: seq<byte>): nat
    requires |image| >= HEADER_SIZE
  {
    Le16(image, 44)
  }

  function HeaderAt(image: seq<byte>, i: nat): nat
    requires |image| >= HEADER_SIZE
  {
    Le32(image, 28) + i * PROGRAM_HEADER_SIZE
  }

  function EntryPoint(image: seq<byte>): nat
    requires |image| >= HEADER_SIZE
  {
    Le32(image, 24)
  }

  // ----- program headers -----

  datatype Segment = Segment(kind: nat, offset: nat, vaddr: nat, filesz: nat, memsz: nat, flags: nat)

  function SegmentAt(image: seq<byte>, i: nat): Segment
    requires Valid(image) && i < HeaderCount(image)
  {
    var o := HeaderAt(image, i);
    Segment(Le32(image, o), Le32(image, o + 4), Le32(image, o + 8), Le32(image, o + 16), Le32(image, o + 20),
            Le32(image, o + 24))
  }

  /** The checks that elf_load makes of a PT_LOAD header; the sum is a uint32_t. */
  predicate Sound(s: Segment, size: nat) {
    && s.memsz >= s.filesz
    && s.offset <= size && s.filesz <= size - s.offset
    && (s.vaddr + s.memsz) % UINT32 >= s.vaddr
  }

  function FirstPage(s: Segment): nat {
    s.vaddr / PAGE_SIZE
  }

  /** segment_end, rounded up in 32 bits: an end in the last page of the address space wraps to 0. */
  function EndPage(s: Segment): nat {
    (s.vaddr + s.memsz + PAGE_SIZE - 1) % UINT32 / PAGE_SIZE
  }

  function PageFlags(s: Segment): nat {
    PAGE_PRESENT + PAGE_USER + if s.flags / 2 % 2 == 1 then PAGE_WRITABLE else 0
  }

  // ----- the bytes of a page -----

  /** The image offset that elf_load copies to address v, or none where the zeroed page is left. */
  function CopiedFrom(s: Segment, v: nat): Option<nat>
    requires v / PAGE_SIZE >= FirstPage(s)
  {
    var page, o := v / PAGE_SIZE, v % PAGE_SIZE;
    var pageOffset := if page == FirstPage(s) then s.vaddr % PAGE_SIZE else 0;
    var copyOffset := (page - FirstPage(s)) * PAGE_SIZE + pageOffset;
    var copySize :=
      if copyOffset >= s.filesz then 0
      else if s.filesz - copyOffset > PAGE_SIZE - pageOffset then PAGE_SIZE - pageOffset else s.filesz - copyOffset;
    if pageOffset <= o < pageOffset + copySize then Some(s.offset + copyOffset + (o - pageOffset)) else None
  }

  /** The image offset that belongs at address v: p_offset + (v - p_vaddr) within the file part. */
  function BelongsAt(s: Segment, v: nat): Option<nat> {
    if s.vaddr <= v < s.vaddr + s.filesz then Some(s.offset + (v - s.vaddr)) else None
  }

  /**
   * "From p_vaddr on, every byte is the byte of the file that belongs there, and the rest zero" holds if and
   * only if p_vaddr is page-aligned or there is nothing to copy: otherwise the bytes are shifted.
   */
  lemma CopyIsRightIffAligned(s: Segment)
    requires s.memsz >= s.filesz
    ensures (forall v: nat | s.vaddr <= v :: CopiedFrom(s, v) == BelongsAt(s, v)) <==>
            s.vaddr % PAGE_SIZE == 0 || s.filesz == 0
  {
    if s.vaddr % PAGE_SIZE != 0 && s.filesz != 0 {
      assert CopiedFrom(s, s.vaddr) != BelongsAt(s, s.vaddr);
    } else {
      forall v: nat | s.vaddr <= v ensures CopiedFrom(s, v) == BelongsAt(s, v) {
        AlignedCopy(s, v);
      }
    }
  }

  lemma AlignedCopy(s: Segment, v: nat)
    requires s.vaddr <= v && (s.vaddr % PAGE_SIZE == 0 || s.filesz == 0)
    ensures CopiedFrom(s, v) == BelongsAt(s, v)
  {
  }

  /** In front of a segment that starts inside a page, the page is zero. */
  lemma NothingInFront(s: Segment, v: nat)
    requires v / PAGE_SIZE == FirstPage(s) && v < s.vaddr
    ensures CopiedFrom(s, v) == None
  {
  }

  lemma CopiesFromFile(s: Segment, size: nat, v: nat)
    requires Sound(s, size) && v / PAGE_SIZE >= FirstPage(s)
    ensures CopiedFrom(s, v).Some? ==> s.offset <= CopiedFrom(s, v).value < s.offset + s.filesz <= size
  {
  }

  /** What elf_load leaves in a page of segment s. */
  function PageBytes(image: seq<byte>, s: Segment, page: nat): (bytes: seq<byte>)
    requires Sound(s, |image|) && page >= FirstPage(s)
    ensures |bytes| == PAGE_SIZE
  {
    seq<byte>(PAGE_SIZE, o requires 0 <= o < PAGE_SIZE => ByteAt(image, s, page * PAGE_SIZE + o))
  }

  function ByteAt(image: seq<byte>, s: Segment, v: nat): byte
    requires Sound(s, |image|) && v / PAGE_SIZE >= FirstPage(s)
  {
    CopiesFromFile(s, |image|, v);
    match CopiedFrom(s, v)
    case Some(k) => image[k]
    case None => 0
  }
}
