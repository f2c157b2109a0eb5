/** kernel/file/file.c: an open file is an entry and a position in it. */
module File {
  import opened Sequences
  import opened Bytes
  import opened FsFormat
  import opened Fs

  const FILE_ACCESS_READ: nat := 1
  const FILE_ACCESS_WRITE: nat := 2
  const FILE_ACCESS_READ_WRITE: nat := 3

  /** (ssize_t) of a size_t: values from 2^31 on come out negative. */
  function SSize(count: nat): int {
    if count < 0x8000_0000 then count else count - UINT32
  }

  class File {
    var fsFile: Option<nat>
    var position: nat
    var access: nat

    constructor ()
      ensures fsFile == None && position == 0 && access == 0
    {
      fsFile, position, access := None, 0, 0;
    }

    predicate Readable()
      reads this
    {
      access == FILE_ACCESS_READ || access == FILE_ACCESS_READ_WRITE
    }

    method Open(fs: FileSystem, path: Name, access: nat) returns (result: int)
      requires fs.Valid() && 0 !in path
      modifies this
      ensures result == 0 || result == -1
      ensures result == -1 ==> fsFile == old(fsFile) && position == old(position) && this.access == old(this.access)
      ensures result == 0 <==>
              && 1 <= access <= 3 && fs.mounted
              && exists i :: 0 <= i < FileCount(fs.image) && NameIs(fs.image, EntryAt(FilesOffset(fs.image), i), path)
      ensures result == 0 ==>
                && position == 0 && this.access == access && fsFile.Some? && NameIs(fs.image, fsFile.value, path)
                && exists i :: 0 <= i < FileCount(fs.image) && fsFile.value == EntryAt(FilesOffset(fs.image), i)
    {
      if access != FILE_ACCESS_READ && access != FILE_ACCESS_WRITE && access != FILE_ACCESS_READ_WRITE { return -1; }
      var entry := fs.Find(path);
      if entry == None { return -1; }
      fsFile, position, this.access := entry, 0, access;
      return 0;
    }

    ghost predicate Valid(fs: FileSystem)
      reads this`fsFile, fs
    {
      fsFile.Some? ==> fsFile.value + ENTRY_SIZE <= |fs.image|
    }

    /** The bytes of the open file, empty when its entry does not fit into the image. */
    ghost function Content(fs: FileSystem): seq<byte>
      requires Valid(fs)
      reads this`fsFile, fs
    {
      match fs.FileData(fsFile)
      case Some(at) => fs.image[at..at + fs.FileSize(fsFile)]
      case None => []
    }

    /**
     * file_read copies what is left of the file, at most `count` bytes, and moves the position on. The
     * data pointer is not checked, so the entry must fit into the image.
     */
    method Read(fs: FileSystem, count: nat) returns (result: int, buffer: seq<byte>)
      requires Valid(fs) && count < UINT32 && (fsFile.Some? ==> fs.FileData(fsFile).Some?)
      modifies this`position
      ensures fsFile.None? || (access != 1 && access != 3) ==> result == -1 && buffer == [] && position == old(position)
      ensures fsFile.Some? && (access == 1 || access == 3) ==>
                && |buffer| == (if old(position) >= |Content(fs)| then 0
                                else if count > |Content(fs)| - old(position) then |Content(fs)| - old(position)
                                else count)
                && result == |buffer| - (if |buffer| < 0x8000_0000 then 0 else 0x1_0000_0000)
                && position == old(position) + |buffer|
                && (old(position) <= |Content(fs)| ==> buffer == Content(fs)[old(position)..position])
    {
      hide Le32;
      buffer := [];
      if fsFile == None { return -1, []; }
      if access != FILE_ACCESS_READ && access != FILE_ACCESS_READ_WRITE { return -1, []; }
      if position >= fs.FileSize(fsFile) { return 0, []; }
      var remaining := fs.FileSize(fsFile) - position;
      var n := if count > remaining then remaining else count;
      var data := fs.FileData(fsFile).value;
      buffer := fs.image[data + position..data + position + n];
      ReadSlice(fs.image, data, fs.FileSize(fsFile), position, n);
      position := position + n;
      return SSize(n), buffer;
    }

    method Close()
      modifies this
      ensures fsFile == None && position == 0 && access == 0
    {
      fsFile, position, access := None, 0, 0;
    }
  }

  lemma ReadSlice(image: seq<byte>, at: nat, size: nat, position: nat, n: nat)
    requires at + size <= |image| && position + n <= size
    ensures image[at + position..at + position + n] == image[at..at + size][position..position + n]
  {
    SliceOfSlice(image, at, at + size, position, position + n);
  }
}
