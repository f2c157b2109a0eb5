/** What mkfs writes, the kernel mounts, finds and reads back. */
module FsRoundTrip {
  import opened Sequences
  import opened Bytes
  import opened FsFormat
  import opened Fs
  import opened File
  import Mkfs

  /** Distinct, nonempty, NUL-free paths of fewer than 64 bytes, and an image that a uint32_t can size. */
  ghost predicate WellFormed(inputs: seq<Input>) {
    && inputs != [] && ShortNames(inputs) && |Image(inputs)| < UINT32
    && (forall i | 0 <= i < |inputs| :: 0 !in inputs[i].name)
    && (forall i, j | 0 <= i < j < |inputs| :: inputs[i].name != inputs[j].name)
  }

  lemma ImageMounts(inputs: seq<Input>)
    requires WellFormed(inputs)
    ensures var image := Image(inputs);
            && Mountable(image) && FileCount(image) == |inputs| && FilesOffset(image) == SUPERBLOCK_SIZE
            && NamesTerminated(image)
  {
    hide Image, Le32;
    SuperblockFields(inputs);
    ImageSize(inputs);
    forall i | 0 <= i < |inputs| ensures Terminated(Image(inputs), EntryAt(SUPERBLOCK_SIZE, i)) {
      EntryFields(inputs, i);
      assert Image(inputs)[EntryAt(SUPERBLOCK_SIZE, i) + |inputs[i].name|] == 0;
    }
  }

  lemma ImageSize(inputs: seq<Input>)
    requires ShortNames(inputs)
    ensures |Image(inputs)| >= DataOffset(|inputs|)
  {
  }

  /** The name field of entry i equals a path if and only if the path is the name of input i. */
  lemma NamesFound(inputs: seq<Input>, i: nat, path: Name)
    requires WellFormed(inputs) && i < |inputs| && 0 !in path
    ensures NameIs(Image(inputs), EntryAt(SUPERBLOCK_SIZE, i), path) <==> path == inputs[i].name
  {
    hide Image, Le32;
    var image, at, name := Image(inputs), EntryAt(SUPERBLOCK_SIZE, i), inputs[i].name;
    EntryFields(inputs, i);
    if NameIs(image, at, path) {
      SameTerminator(image, at, name, path);
    }
  }

  lemma InsideName(image: seq<byte>, at: nat, name: Name, k: nat)
    requires NameIs(image, at, name) && 0 !in name && k < |name|
    ensures image[at + k] != 0
  {
    assert image[at..at + |name|][k] == name[k];
  }

  lemma SameTerminator(image: seq<byte>, at: nat, a: Name, b: Name)
    requires NameIs(image, at, a) && NameIs(image, at, b) && 0 !in a && 0 !in b
    ensures a == b
  {
    if |a| < |b| {
      InsideName(image, at, b, |a|);
    } else if |b| < |a| {
      InsideName(image, at, a, |b|);
    }
  }

  /** Each name leads to its own entry, and any other path to none. */
  lemma FindInImage(inputs: seq<Input>, path: Name, i: nat)
    requires WellFormed(inputs) && 0 !in path && i < |inputs|
    requires NameIs(Image(inputs), EntryAt(SUPERBLOCK_SIZE, i), path)
    ensures inputs[i].name == path
    ensures forall k | 0 <= k < |inputs| && k != i :: !NameIs(Image(inputs), EntryAt(SUPERBLOCK_SIZE, k), path)
  {
    hide NameIs;
    NamesFound(inputs, i, path);
    forall k | 0 <= k < |inputs| && k != i ensures !NameIs(Image(inputs), EntryAt(SUPERBLOCK_SIZE, k), path) {
      NamesFound(inputs, k, path);
    }
  }

  /** Bytes that a sequence of reads asks for. */
  function Sum(counts: seq<nat>): nat {
    if counts == [] then 0 else Sum(counts[..|counts| - 1]) + counts[|counts| - 1]
  }

  function Min(a: nat, b: nat): nat {
    if a < b then a else b
  }

  /** An open file reads the contents of its input. */
  lemma OpenedContent(inputs: seq<Input>, i: nat, fs: FileSystem, file: File)
    requires WellFormed(inputs) && i < |inputs| && fs.image == Image(inputs)
    requires file.fsFile == Some(EntryAt(SUPERBLOCK_SIZE, i))
    ensures file.Valid(fs) && fs.FileData(file.fsFile).Some? && file.Content(fs) == inputs[i].content
  {
    hide Image, Le32;
    EntryFields(inputs, i);
    ContentSlice(inputs, i);
  }

  lemma ReadNothing(counts: seq<nat>, all: seq<byte>)
    ensures Min(Sum(counts[..0]), |all|) == 0 && all[..0] == []
  {
  }

  /** One more read of a file that has been read up to `before`. */
  lemma ReadMore(counts: seq<nat>, k: nat, all: seq<byte>, before: nat, buffer: seq<byte>)
    requires k < |counts| && before == Min(Sum(counts[..k]), |all|)
    requires |buffer| == Min(counts[k], |all| - before)
    requires buffer == all[before..before + |buffer|]
    ensures before + |buffer| == Min(Sum(counts[..k + 1]), |all|)
    ensures all[..before] + buffer == all[..before + |buffer|]
  {
    assert counts[..k + 1][..k] == counts[..k];
  }

  lemma ReadAll(counts: seq<nat>, all: seq<byte>)
    ensures Min(Sum(counts), |all|) <= |all|
    ensures Sum(counts) >= |all| ==> Min(Sum(counts), |all|) == |all| && all[..|all|] == all
  {
  }

  /** What the calls returned, added up. */
  function Added(results: seq<int>): int {
    if results == [] then 0 else Added(results[..|results| - 1]) + results[|results| - 1]
  }

  lemma AddedMore(results: seq<int>, r: int)
    ensures Added(results + [r]) == Added(results) + r
  {
    assert (results + [r])[..|results|] == results;
  }

  /** Bytes of a file of n bytes that the k-th of the reads finds left to copy. */
  function Gained(counts: seq<nat>, n: nat, k: nat): int
    requires k < |counts|
  {
    Min(Sum(counts[..k + 1]), n) - Min(Sum(counts[..k]), n)
  }

  /**
   * A file read from its start with any sequence of counts, and once more: each call returns the number
   * of bytes that it adds, and the position is their sum.
   */
  method ReadSequence(fs: FileSystem, file: File, counts: seq<nat>)
    returns (content: seq<byte>, results: seq<int>, last: int)
    requires file.Valid(fs) && file.fsFile.Some? && fs.FileData(file.fsFile).Some?
    requires file.Readable() && file.position == 0 && forall k | 0 <= k < |counts| :: counts[k] < 0x8000_0000
    modifies file`position
    ensures content == file.Content(fs)[..Min(Sum(counts), |file.Content(fs)|)]
    ensures |results| == |counts|
    ensures forall k | 0 <= k < |counts| :: results[k] == Gained(counts, |file.Content(fs)|, k)
    ensures Added(results) == |content|
    ensures Sum(counts) >= |file.Content(fs)| ==> content == file.Content(fs) && last == 0
  {
    hide Le32, Sum, FileSystem.FileData, FileSystem.FileSize, File.Content;
    content, results := [], [];
    ghost var all := file.Content(fs);
    ReadNothing(counts, all);
    for k := 0 to |counts|
      invariant file.Content(fs) == all
      invariant file.position == Min(Sum(counts[..k]), |all|) && content == all[..file.position]
      invariant |results| == k && Added(results) == file.position
      invariant forall j | 0 <= j < k :: results[j] == Gained(counts, |all|, j)
    {
      ghost var before := file.position;
      var result, buffer := file.Read(fs, counts[k]);
      ReadMore(counts, k, all, before, buffer);
      content := content + buffer;
      AddedMore(results, result);
      results := results + [result];
    }
    assert counts[..|counts|] == counts;
    var rest;
    ReadAll(counts, all);
    last, rest := file.Read(fs, 4096);
  }

  /**
   * The round trip: write an image, mount it, open a file by its path, and read it with any sequence
   * of counts. What is read is the prefix of the file that the counts ask for; once they add up to
   * the size it is the whole file, and the next read returns 0.
   */
  method WriteMountRead(inputs: seq<Input>, path: Name, counts: seq<nat>)
    returns (found: bool, content: seq<byte>, results: seq<int>, last: int)
    requires WellFormed(inputs) && 0 !in path
    requires forall k | 0 <= k < |counts| :: counts[k] < 0x8000_0000
    ensures found <==> exists i :: 0 <= i < |inputs| && inputs[i].name == path
    ensures forall i | 0 <= i < |inputs| && inputs[i].name == path ::
              && content == inputs[i].content[..Min(Sum(counts), |inputs[i].content|)]
              && |results| == |counts| && Added(results) == |content|
              && (forall k | 0 <= k < |counts| :: results[k] == Gained(counts, |inputs[i].content|, k))
              && (Sum(counts) >= |inputs[i].content| ==> content == inputs[i].content && last == 0)
  {
    hide Image, Le32, NameIs, Mountable, NamesTerminated, Sum, Added, Gained;
    found, content, results, last := false, [], [], 0;
    NotRejected(inputs);
    var image := Mkfs.Run(inputs);
    ImageMounts(inputs);
    var fs := new FileSystem();
    var mounted := fs.Mount(image.value);
    var file := new File();
    var status := file.Open(fs, path, FILE_ACCESS_READ);
    found := status == 0;
    NamesInImage(inputs, path);
    if !found { return; }
    ghost var e :| 0 <= e < |inputs| && file.fsFile.value == EntryAt(SUPERBLOCK_SIZE, e);
    NamesFound(inputs, e, path);
    OpenedContent(inputs, e, fs, file);
    content, results, last := ReadSequence(fs, file, counts);
    UniqueName(inputs, e);
  }

  lemma NotRejected(inputs: seq<Input>)
    requires WellFormed(inputs)
    ensures forall i | 0 <= i < |inputs| :: !Mkfs.Rejected(inputs[i])
  {
    forall i | 0 <= i < |inputs| ensures !Mkfs.Rejected(inputs[i]) {
      ContentSlice(inputs, i);
    }
  }

  lemma NamesInImage(inputs: seq<Input>, path: Name)
    requires WellFormed(inputs) && 0 !in path
    ensures (exists i :: 0 <= i < |inputs| && NameIs(Image(inputs), EntryAt(SUPERBLOCK_SIZE, i), path)) <==>
            (exists i :: 0 <= i < |inputs| && inputs[i].name == path)
  {
    hide Image, NameIs;
    forall i | 0 <= i < |inputs|
      ensures NameIs(Image(inputs), EntryAt(SUPERBLOCK_SIZE, i), path) <==> path == inputs[i].name
    {
      NamesFound(inputs, i, path);
    }
  }

  lemma UniqueName(inputs: seq<Input>, e: nat)
    requires WellFormed(inputs) && e < |inputs|
    ensures forall i | 0 <= i < |inputs| && inputs[i].name == inputs[e].name :: i == e
  {
  }
}
