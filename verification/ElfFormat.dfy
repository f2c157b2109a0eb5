/**
 * The two headers of the format, field by field as "ELF Header" and "Program Header" of the TIS ELF
 * specification, version 1.2, lay them out, and what the loader's offsets find in them.
 */
module ElfFormat {
  import opened Bytes
  import opened ElfImage

  datatype Header = Header(kind: nat, machine: nat, version: nat, entry: nat, phoff: nat, shoff: nat, flags: nat,
                           ehsize: nat, phentsize: nat, phnum: nat, shentsize: nat, shnum: nat, shstrndx: nat)

  datatype ProgramHeader = ProgramHeader(kind: nat, offset: nat, vaddr: nat, paddr: nat, filesz: nat, memsz: nat,
                                         flags: nat, align: nat)

  const UINT16: nat := 0x1_0000

  predicate Representable(h: Header) {
    && h.kind < UINT16 && h.machine < UINT16 && h.version < UINT32 && h.entry < UINT32 && h.phoff < UINT32
    && h.shoff < UINT32 && h.flags < UINT32 && h.ehsize < UINT16 && h.phentsize < UINT16 && h.phnum < UINT16
    && h.shentsize < UINT16 && h.shnum < UINT16 && h.shstrndx < UINT16
  }

  predicate RepresentableSegment(p: ProgramHeader) {
    && p.kind < UINT32 && p.offset < UINT32 && p.vaddr < UINT32 && p.paddr < UINT32 && p.filesz < UINT32
    && p.memsz < UINT32 && p.flags < UINT32 && p.align < UINT32
  }

  /** The two bytes of a uint16_t. */
  function Half(w: nat): (s: seq<byte>)
    requires w < UINT16
    ensures |s| == 2
  {
    [w % 0x100, w / 0x100]
  }

  /** e_ident: the magic number, then class, data encoding and ten bytes that the loader ignores. */
  function HeaderBytes(ident: seq<byte>, h: Header): (s: seq<byte>)
    requires |ident| == 16 && Representable(h)
    ensures |s| == 52
  {
    ident + Half(h.kind) + Half(h.machine) + Word(h.version) + Word(h.entry) + Word(h.phoff) + Word(h.shoff)
    + Word(h.flags) + Half(h.ehsize) + Half(h.phentsize) + Half(h.phnum) + Half(h.shentsize) + Half(h.shnum)
    + Half(h.shstrndx)
  }

  function ProgramHeaderBytes(p: ProgramHeader): (s: seq<byte>)
    requires RepresentableSegment(p)
    ensures |s| == 32
  {
    Word(p.kind) + Word(p.offset) + Word(p.vaddr) + Word(p.paddr) + Word(p.filesz) + Word(p.memsz) + Word(p.flags)
    + Word(p.align)
  }

  lemma Le16At(s: seq<byte>, o: nat, w: nat)
    requires o + 2 <= |s| && w < UINT16 && s[o..o + 2] == Half(w)
    ensures Le16(s, o) == w
  {
    var t := s[o..o + 2];
    assert t[0] == s[o] && t[1] == s[o + 1];
  }

  lemma HeaderParts(ident: seq<byte>, h: Header)
    requires |ident| == 16 && Representable(h)
    ensures var b := HeaderBytes(ident, h);
            && b[0..16] == ident && b[16..18] == Half(h.kind) && b[18..20] == Half(h.machine)
            && b[24..28] == Word(h.entry) && b[28..32] == Word(h.phoff)
            && b[42..44] == Half(h.phentsize) && b[44..46] == Half(h.phnum)
  {
    hide Half, Word;
  }

  lemma ProgramHeaderParts(p: ProgramHeader)
    requires RepresentableSegment(p)
    ensures var b := ProgramHeaderBytes(p);
            && b[0..4] == Word(p.kind) && b[4..8] == Word(p.offset) && b[8..12] == Word(p.vaddr)
            && b[16..20] == Word(p.filesz) && b[20..24] == Word(p.memsz) && b[24..28] == Word(p.flags)
  {
    hide Word;
  }

  /** The header that an image starts with is the one that the loader reads. */
  lemma HeaderFields(image: seq<byte>, ident: seq<byte>, h: Header)
    requires |ident| == 16 && Representable(h) && |image| >= 52 && image[0..52] == HeaderBytes(ident, h)
    ensures HeaderCount(image) == h.phnum && EntryPoint(image) == h.entry && HeaderAt(image, 0) == h.phoff
    ensures Le16(image, 16) == h.kind && Le16(image, 18) == h.machine && Le16(image, 42) == h.phentsize
    ensures image[0..16] == ident
  {
    hide HeaderBytes, Half, Word, Le16, Le32;
    HeaderParts(ident, h);
    SliceOfSlice(image, 0, 52, 0, 16);
    SliceOfSlice(image, 0, 52, 16, 18);
    SliceOfSlice(image, 0, 52, 18, 20);
    SliceOfSlice(image, 0, 52, 24, 28);
    SliceOfSlice(image, 0, 52, 28, 32);
    SliceOfSlice(image, 0, 52, 42, 44);
    SliceOfSlice(image, 0, 52, 44, 46);
    Le16At(image, 16, h.kind);
    Le16At(image, 18, h.machine);
    Le32At(image, 24, h.entry);
    Le32At(image, 28, h.phoff);
    Le16At(image, 42, h.phentsize);
    Le16At(image, 44, h.phnum);
  }

  /**
   * elf_validate in terms of the format: magic number, ELFCLASS32, ELFDATA2LSB, ET_EXEC, EM_386, program
   * headers of the right size, at least one, and all of them inside the image.
   */
  lemma ValidMeans(image: seq<byte>, ident: seq<byte>, h: Header)
    requires |ident| == 16 && Representable(h) && |image| >= 52 && image[0..52] == HeaderBytes(ident, h)
    ensures Valid(image) <==>
            && ident[0..6] == [0x7F, 0x45, 0x4C, 0x46, 1, 1] && h.kind == 2 && h.machine == 3
            && h.phentsize == 32 && h.phnum > 0 && h.phoff + 32 * h.phnum <= |image|
  {
    HeaderFields(image, ident, h);
    assert forall k | 0 <= k < 16 :: image[k] == image[0..16][k];
    hide HeaderBytes, Le16, Le32;
  }

  lemma TooShort(image: seq<byte>)
    requires |image| < 52
    ensures !Valid(image)
  {
  }

  /** The i-th program header of the table is the one that elf_load reads. */
  lemma SegmentFields(image: seq<byte>, i: nat, p: ProgramHeader)
    requires Valid(image) && i < HeaderCount(image) && RepresentableSegment(p)
    requires HeaderAt(image, 0) + 32 * (i + 1) <= |image|
    requires image[HeaderAt(image, 0) + 32 * i..HeaderAt(image, 0) + 32 * (i + 1)] == ProgramHeaderBytes(p)
    ensures SegmentAt(image, i) == Segment(p.kind, p.offset, p.vaddr, p.filesz, p.memsz, p.flags)
  {
    hide ProgramHeaderBytes, Word, Le32;
    var o := HeaderAt(image, i);
    ProgramHeaderParts(p);
    SliceOfSlice(image, o, o + 32, 0, 4);
    SliceOfSlice(image, o, o + 32, 4, 8);
    SliceOfSlice(image, o, o + 32, 8, 12);
    SliceOfSlice(image, o, o + 32, 16, 20);
    SliceOfSlice(image, o, o + 32, 20, 24);
    SliceOfSlice(image, o, o + 32, 24, 28);
    Le32At(image, o, p.kind);
    Le32At(image, o + 4, p.offset);
    Le32At(image, o + 8, p.vaddr);
    Le32At(image, o + 16, p.filesz);
    Le32At(image, o + 20, p.memsz);
    Le32At(image, o + 24, p.flags);
  }

  /** The loader's checks of a PT_LOAD header: the file part fits both the segment and the image, no overflow. */
  lemma SoundMeansFits(p: ProgramHeader, size: nat)
    requires RepresentableSegment(p)
    ensures Sound(Segment(p.kind, p.offset, p.vaddr, p.filesz, p.memsz, p.flags), size) <==>
            p.filesz <= p.memsz && p.offset + p.filesz <= size && p.vaddr + p.memsz < 0x1_0000_0000
  {
  }
}
