/** kernel/fs/fs.c: mounting an image in memory and finding files in it. */
module Fs {
  import opened Sequences
  import opened Bytes
  import opened FsFormat

  function FileCount(image: seq<byte>): nat
    requires |image| >= SUPERBLOCK_SIZE
  {
    Le32(image, 8)
  }

  function FilesOffset(image: seq<byte>): nat
    requires |image| >= SUPERBLOCK_SIZE
  {
    Le32(image, 12)
  }

  /** The image that fs_mount accepts: the table lies inside it, and the data after the table. */
  predicate Mountable(image: seq<byte>) {
    && |image| >= SUPERBLOCK_SIZE
    && Le32(image, 0) == FS_MAGIC && Le32(image, 4) == FS_VERSION
    && EntryAt(FilesOffset(image), FileCount(image)) <= Le32(image, 16) <= |image|
  }

  /** strcmp(files[i].name, path) == 0. */
  predicate NameIs(image: seq<byte>, at: nat, path: Name) {
    at + |path| < |image| && image[at..at + |path|] == path && image[at + |path|] == 0
  }

  /** The name at `at` ends within the image, so comparing with it stays inside. */
  ghost predicate Terminated(image: seq<byte>, at: nat) {
    exists z :: at <= z < |image| && image[z] == 0
  }

  ghost predicate NamesTerminated(image: seq<byte>)
    requires Mountable(image)
  {
    forall i | 0 <= i < FileCount(image) :: Terminated(image, EntryAt(FilesOffset(image), i))
  }

  lemma DiffersAt(image: seq<byte>, at: nat, path: Name, k: nat)
    requires k < |path| && at + k < |image| && image[at + k] != path[k]
    ensures !NameIs(image, at, path)
  {
    if at + |path| < |image| {
      assert image[at..at + |path|][k] == image[at + k];
    }
  }

  /** strcmp with a C string, whose terminator is not part of `path`. */
  method StringsEqual(image: seq<byte>, at: nat, path: Name) returns (equal: bool)
    requires Terminated(image, at) && 0 !in path
    ensures equal <==> NameIs(image, at, path)
  {
    ghost var z :| at <= z < |image| && image[z] == 0;
    var k := 0;
    while k < |path|
      invariant k <= |path| && at + k <= z && image[at..at + k] == path[..k]
    {
      if image[at + k] != path[k] {
        DiffersAt(image, at, path, k);
        return false;
      }
      assert image[at..at + k + 1] == image[at..at + k] + [image[at + k]] && path[..k + 1] == path[..k] + [path[k]];
      k := k + 1;
    }
    return image[at + k] == 0;
  }

  class FileSystem {
    var image: seq<byte>           // fs_image and fs_image_size
    var mounted: bool              // fs_superblock is not NULL

    constructor ()
      ensures !mounted && image == []
    {
      image, mounted := [], false;
    }

    /** Later calls may look at the image: the last fs_mount that set the globals accepted it. */
    ghost predicate Valid()
      reads this
    {
      mounted ==> Mountable(image) && NamesTerminated(image) && |image| < UINT32
    }

    /**
     * The globals are set before the image is validated: a failed mount keeps the old one if and only
     * if the new image is too short for a superblock, or the same.
     */
    method Mount(img: seq<byte>) returns (result: int)
      requires |img| < UINT32
      modifies this
      ensures result == if Mountable(img) then 0 else -1
      ensures result == 0 <==>
              && |img| >= 20 && Le32(img, 0) == 0x4E58_4653 && Le32(img, 4) == 1
              && Le32(img, 12) + 72 * Le32(img, 8) <= Le32(img, 16) <= |img|
      ensures |img| >= SUPERBLOCK_SIZE ==> image == img && mounted
      ensures |img| < SUPERBLOCK_SIZE ==> image == old(image) && mounted == old(mounted)
    {
      hide Le32;
      if |img| < SUPERBLOCK_SIZE { return -1; }
      image, mounted := img, true;
      if Le32(image, 0) != FS_MAGIC { return -1; }
      if Le32(image, 4) != FS_VERSION { return -1; }
      if FilesOffset(image) > |img| { return -1; }
      if FileCount(image) > (|img| - FilesOffset(image)) / ENTRY_SIZE {
        CountMeans(|img|, FilesOffset(image), FileCount(image));
        return -1;
      }
      CountMeans(|img|, FilesOffset(image), FileCount(image));
      var filesEnd := (FilesOffset(image) + FileCount(image) * ENTRY_SIZE) % UINT32;
      if Le32(image, 16) < filesEnd { return -1; }
      if Le32(image, 16) > |img| { return -1; }
      return 0;
    }

    /** The address of the first entry of that name, if the file system has one. */
    method Find(path: Name) returns (entry: Option<nat>)
      requires Valid() && 0 !in path
      ensures entry.None? <==>
              !mounted || forall i | 0 <= i < FileCount(image) :: !NameIs(image, EntryAt(FilesOffset(image), i), path)
      ensures entry.Some? ==>
                mounted && exists i :: 0 <= i < FileCount(image) && entry.value == EntryAt(FilesOffset(image), i) &&
                                       NameIs(image, entry.value, path) &&
                                       forall k | 0 <= k < i :: !NameIs(image, EntryAt(FilesOffset(image), k), path)
    {
      if !mounted { return None; }
      for i := 0 to FileCount(image)
        invariant forall k | 0 <= k < i :: !NameIs(image, EntryAt(FilesOffset(image), k), path)
      {
        var equal := StringsEqual(image, EntryAt(FilesOffset(image), i), path);
        if equal { return Some(EntryAt(FilesOffset(image), i)); }
      }
      return None;
    }

    /** The address of the file's data, when offset and size lie inside the image. */
    function FileData(entry: Option<nat>): (data: Option<nat>)
      requires entry.Some? ==> entry.value + ENTRY_SIZE <= |image|
      reads this
      ensures data.Some? <==> entry.Some? && Le32(image, entry.value + 64) + FileSize(entry) <= |image|
      ensures data.Some? ==> data.value + FileSize(entry) <= |image|
    {
      if entry.None? then None
      else
        var offset, size := Le32(image, entry.value + 64), Le32(image, entry.value + 68);
        if offset > |image| then None else if size > |image| - offset then None else Some(offset)
    }

    function FileSize(entry: Option<nat>): nat
      requires entry.Some? ==> entry.value + ENTRY_SIZE <= |image|
      reads this
    {
      if entry.None? then 0 else Le32(image, entry.value + 68)
    }
  }

  lemma CountMeans(size: nat, offset: nat, count: nat)
    requires offset <= size
    ensures count > (size - offset) / ENTRY_SIZE <==> EntryAt(offset, count) > size
  {
  }
}
