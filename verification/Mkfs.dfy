/** tools/mkfs.c: the layout of the image and its writing, with the host files as byte sequences. */
module Mkfs {
  import opened Sequences
  import opened Bytes
  import opened FsFormat

  const CHUNK: nat := 4096

  /** copy_file appends the whole file, a chunk at a time. */
  method CopyFile(output: seq<byte>, source: seq<byte>) returns (written: seq<byte>)
    ensures written == output + source
  {
    written := output;
    var remaining := |source|;
    while remaining != 0
      invariant 0 <= remaining <= |source| && written == output + source[..|source| - remaining]
    {
      var chunk := if remaining > CHUNK then CHUNK else remaining;
      var at := |source| - remaining;
      assert source[..at] + source[at..at + chunk] == source[..at + chunk];
      written := written + source[at..at + chunk];
      remaining := remaining - chunk;
    }
    assert source[..|source|] == source;
  }

  /** create_file_entry: a zeroed entry, into which name, offset and size are copied. */
  method CreateFileEntry(inputs: seq<Input>, i: nat, offset: nat) returns (entry: seq<byte>)
    requires ShortNames(inputs) && i < |inputs| && offset == FileOffset(inputs, i) % UINT32
    ensures entry == EntryBytes(inputs, i)
  {
    var blank := Zeros(ENTRY_SIZE);
    var named := inputs[i].name + blank[|inputs[i].name|..];
    entry := named[..64] + Word(offset) + Word(|inputs[i].content| % UINT32);
    assert named[..64] == inputs[i].name + Zeros(FS_FILENAME_MAX - |inputs[i].name|);
  }

  /** A path that parse_input rejects, or a file too large for it. */
  predicate Rejected(input: Input) {
    |input.name| == 0 || |input.name| >= FS_FILENAME_MAX || |input.content| > 0xFFFFFFFF
  }

  /** parse_input of every argument. */
  method AnyRejected(inputs: seq<Input>) returns (rejected: bool)
    ensures rejected <==> exists i :: 0 <= i < |inputs| && Rejected(inputs[i])
  {
    for i := 0 to |inputs|
      invariant forall k | 0 <= k < i :: !Rejected(inputs[k])
    {
      if Rejected(inputs[i]) { return true; }
    }
    return false;
  }

  /** The running offset is a uint32_t. */
  method LayOut(inputs: seq<Input>) returns (offsets: seq<nat>)
    ensures |offsets| == |inputs| && forall k | 0 <= k < |inputs| :: offsets[k] == FileOffset(inputs, k) % UINT32
  {
    offsets := [];
    var dataOffset := (SUPERBLOCK_SIZE + |inputs| * ENTRY_SIZE) % UINT32;
    var currentOffset := dataOffset;
    assert FileOffset(inputs, 0) == DataOffset(|inputs|);
    hide FileOffset;
    for i := 0 to |inputs|
      invariant currentOffset == FileOffset(inputs, i) % UINT32
      invariant |offsets| == i && forall k | 0 <= k < i :: offsets[k] == FileOffset(inputs, k) % UINT32
    {
      offsets := offsets + [currentOffset];
      NextOffset(inputs, i);
      currentOffset := (currentOffset + |inputs[i].content|) % UINT32;
    }
  }

  lemma NextOffset(inputs: seq<Input>, i: nat)
    requires i < |inputs|
    ensures FileOffset(inputs, i + 1) % UINT32 == (FileOffset(inputs, i) % UINT32 + |inputs[i].content|) % UINT32
  {
    assert FileOffset(inputs, i + 1) == FileOffset(inputs, i) + |inputs[i].content|;
  }

  lemma Appended(a: seq<byte>, b: seq<byte>, c: seq<byte>, e: seq<byte>)
    ensures a + b + c + e == a + b + (c + e)
  {
  }

  /** main: it writes the image of FsFormat, unless there is no input or one is rejected. */
  method Run(inputs: seq<Input>) returns (image: Option<seq<byte>>)
    ensures image.Some? <==>
            && inputs != []
            && forall i | 0 <= i < |inputs| :: 1 <= |inputs[i].name| <= 63 && |inputs[i].content| < 0x1_0000_0000
    ensures image.Some? ==> ShortNames(inputs) && image.value == Image(inputs)
  {
    if |inputs| < 1 { return None; }
    var rejected := AnyRejected(inputs);
    if rejected { return None; }
    hide EntryBytes, FileOffset, Superblock;
    assert ShortNames(inputs) by { assert forall i | 0 <= i < |inputs| :: !Rejected(inputs[i]); }
    var offsets := LayOut(inputs);
    var files: seq<byte> := [];
    for i := 0 to |inputs|
      invariant files == Table(inputs, i)
    {
      var entry := CreateFileEntry(inputs, i, offsets[i]);
      files := files + entry;
    }
    var output := Superblock(|inputs|) + files;
    for i := 0 to |inputs|
      invariant output == Superblock(|inputs|) + Table(inputs, |inputs|) + Data(inputs, i)
    {
      var written := CopyFile(output, inputs[i].content);
      Appended(Superblock(|inputs|), Table(inputs, |inputs|), Data(inputs, i), inputs[i].content);
      output := written;
    }
    assert output == Image(inputs);
    return Some(output);
  }
}
