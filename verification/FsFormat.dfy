/** The file system image of include/fs_format.h: superblock, file table, file contents. */
module FsFormat {
  import opened Bytes

  const FS_MAGIC: nat := 0x4E584653
  const FS_VERSION: nat := 1
  const FS_FILENAME_MAX: nat := 64
  const SUPERBLOCK_SIZE: nat := 20
  const ENTRY_SIZE: nat := 72

  type Name = seq<byte>

  /** A file to put into the image: its path there, and the bytes of the host file. */
  datatype Input = Input(name: Name, content: seq<byte>)

  function Zeros(n: nat): (s: seq<byte>)
    ensures |s| == n && forall k | 0 <= k < n :: s[k] == 0
  {
    seq<byte>(n, _ => 0)
  }

  // ----- the image that mkfs writes -----

  function DataOffset(count: nat): nat {
    SUPERBLOCK_SIZE + count * ENTRY_SIZE
  }

  /** Bytes of the first i files. */
  function Total(inputs: seq<Input>, i: nat): nat
    requires i <= |inputs|
  {
    if i == 0 then 0 else Total(inputs, i - 1) + |inputs[i - 1].content|
  }

  function FileOffset(inputs: seq<Input>, i: nat): nat
    requires i <= |inputs|
  {
    DataOffset(|inputs|) + Total(inputs, i)
  }

  /** The five words of struct fs_superblock; uint32_t arithmetic wraps around. */
  function Superblock(count: nat): (s: seq<byte>)
    ensures |s| == SUPERBLOCK_SIZE
  {
    Word(FS_MAGIC) + Word(FS_VERSION) + Word(count % UINT32) + Word(SUPERBLOCK_SIZE) + Word(DataOffset(count) % UINT32)
  }

  function EntryBytes(inputs: seq<Input>, i: nat): (s: seq<byte>)
    requires i < |inputs| && |inputs[i].name| < FS_FILENAME_MAX
    ensures |s| == ENTRY_SIZE
  {
    inputs[i].name + Zeros(FS_FILENAME_MAX - |inputs[i].name|)
    + Word(FileOffset(inputs, i) % UINT32) + Word(|inputs[i].content| % UINT32)
  }

  ghost predicate ShortNames(inputs: seq<Input>) {
    forall i | 0 <= i < |inputs| :: 0 < |inputs[i].name| < FS_FILENAME_MAX
  }

  function Table(inputs: seq<Input>, i: nat): (s: seq<byte>)
    requires i <= |inputs| && ShortNames(inputs)
    ensures |s| == i * ENTRY_SIZE
  {
    if i == 0 then [] else Table(inputs, i - 1) + EntryBytes(inputs, i - 1)
  }

  function Data(inputs: seq<Input>, i: nat): (s: seq<byte>)
    requires i <= |inputs|
    ensures |s| == Total(inputs, i)
  {
    if i == 0 then [] else Data(inputs, i - 1) + inputs[i - 1].content
  }

  function Image(inputs: seq<Input>): (s: seq<byte>)
    requires ShortNames(inputs)
    ensures |s| == FileOffset(inputs, |inputs|)
  {
    Superblock(|inputs|) + Table(inputs, |inputs|) + Data(inputs, |inputs|)
  }

  // ----- where the parts are -----

  function EntryAt(filesOffset: nat, i: nat): nat {
    filesOffset + i * ENTRY_SIZE
  }

  lemma {:induction false} TableSlice(inputs: seq<Input>, n: nat, i: nat)
    requires i < n <= |inputs| && ShortNames(inputs)
    ensures Table(inputs, n)[i * ENTRY_SIZE..(i + 1) * ENTRY_SIZE] == EntryBytes(inputs, i)
  {
    if i < n - 1 {
      TableSlice(inputs, n - 1, i);
      assert (i + 1) * ENTRY_SIZE <= (n - 1) * ENTRY_SIZE;
      SliceOfPrefix(Table(inputs, n - 1), EntryBytes(inputs, n - 1), i * ENTRY_SIZE, (i + 1) * ENTRY_SIZE);
    }
  }

  lemma {:induction false} DataSlice(inputs: seq<Input>, n: nat, i: nat)
    requires i < n <= |inputs|
    ensures Total(inputs, i) + |inputs[i].content| <= Total(inputs, n)
    ensures Data(inputs, n)[Total(inputs, i)..Total(inputs, i) + |inputs[i].content|] == inputs[i].content
  {
    if i < n - 1 {
      DataSlice(inputs, n - 1, i);
      SliceOfPrefix(Data(inputs, n - 1), inputs[n - 1].content,
                    Total(inputs, i), Total(inputs, i) + |inputs[i].content|);
    }
  }

  /** The bytes of the i-th table entry of the image. */
  lemma EntrySlice(inputs: seq<Input>, i: nat)
    requires ShortNames(inputs) && i < |inputs|
    ensures var at := EntryAt(SUPERBLOCK_SIZE, i);
            at + ENTRY_SIZE <= |Image(inputs)| && Image(inputs)[at..at + ENTRY_SIZE] == EntryBytes(inputs, i)
  {
    var n := |inputs|;
    TableSlice(inputs, n, i);
    assert (i + 1) * ENTRY_SIZE <= n * ENTRY_SIZE;
    SliceOfMiddle(Superblock(n), Table(inputs, n), Data(inputs, n), i * ENTRY_SIZE, (i + 1) * ENTRY_SIZE);
  }

  lemma ContentSlice(inputs: seq<Input>, i: nat)
    requires ShortNames(inputs) && i < |inputs|
    ensures var at := FileOffset(inputs, i);
            && at + |inputs[i].content| <= |Image(inputs)|
            && Image(inputs)[at..at + |inputs[i].content|] == inputs[i].content
  {
    var n := |inputs|;
    DataSlice(inputs, n, i);
    var head := Superblock(n) + Table(inputs, n);
    SliceOfMiddle(head, Data(inputs, n), [], Total(inputs, i), Total(inputs, i) + |inputs[i].content|);
    assert Image(inputs) == head + Data(inputs, n) + [];
  }

  /** The words and the name that a reader finds in the i-th entry. */
  lemma EntryFields(inputs: seq<Input>, i: nat)
    requires ShortNames(inputs) && i < |inputs| && |Image(inputs)| < UINT32
    ensures var image, at, name := Image(inputs), EntryAt(SUPERBLOCK_SIZE, i), inputs[i].name;
            && at + ENTRY_SIZE <= |image|
            && image[at..at + |name|] == name && image[at + |name|] == 0
            && image[at + |name|..at + 64] == Zeros(64 - |name|)
            && Le32(image, at + 64) == FileOffset(inputs, i) && Le32(image, at + 68) == |inputs[i].content|
  {
    hide Le32, Word, Image, EntryBytes;
    var image, at, name, entry := Image(inputs), EntryAt(SUPERBLOCK_SIZE, i), inputs[i].name, EntryBytes(inputs, i);
    EntrySlice(inputs, i);
    ContentSlice(inputs, i);
    EntryParts(inputs, i);
    SliceOfSlice(image, at, at + ENTRY_SIZE, 0, |name|);
    SliceOfSlice(image, at, at + ENTRY_SIZE, |name|, 64);
    PaddingEnds(image, at + |name|, 64 - |name|);
    SliceOfSlice(image, at, at + ENTRY_SIZE, 64, 68);
    SliceOfSlice(image, at, at + ENTRY_SIZE, 68, 72);
    Le32At(image, at + 64, FileOffset(inputs, i));
    Le32At(image, at + 68, |inputs[i].content|);
  }

  lemma PaddingEnds(s: seq<byte>, at: nat, n: nat)
    requires n > 0 && at + n <= |s| && s[at..at + n] == Zeros(n)
    ensures s[at] == 0
  {
    assert s[at] == s[at..at + n][0];
  }

  lemma EntryParts(inputs: seq<Input>, i: nat)
    requires ShortNames(inputs) && i < |inputs|
    ensures var entry, name := EntryBytes(inputs, i), inputs[i].name;
            && entry[0..|name|] == name && entry[|name|..64] == Zeros(64 - |name|)
            && entry[64..68] == Word(FileOffset(inputs, i) % UINT32)
            && entry[68..72] == Word(|inputs[i].content| % UINT32)
  {
    hide Word;
    var entry, name := EntryBytes(inputs, i), inputs[i].name;
    var field := name + Zeros(64 - |name|);
    assert entry[0..64] == field;
    assert entry[|name|..64] == field[|name|..];
  }

  lemma SuperblockFields(inputs: seq<Input>)
    requires ShortNames(inputs) && |Image(inputs)| < UINT32
    ensures var image := Image(inputs);
            && Le32(image, 0) == FS_MAGIC && Le32(image, 4) == FS_VERSION && Le32(image, 8) == |inputs|
            && Le32(image, 12) == SUPERBLOCK_SIZE && Le32(image, 16) == DataOffset(|inputs|)
  {
    hide Le32, Word, Superblock;
    var image, s := Image(inputs), Superblock(|inputs|);
    var rest := Table(inputs, |inputs|) + Data(inputs, |inputs|);
    assert image == s + rest;
    SuperblockParts(|inputs|);
    SliceOfPrefix(s, rest, 0, 4);
    SliceOfPrefix(s, rest, 4, 8);
    SliceOfPrefix(s, rest, 8, 12);
    SliceOfPrefix(s, rest, 12, 16);
    SliceOfPrefix(s, rest, 16, 20);
    assert DataOffset(|inputs|) < UINT32;
    Le32At(image, 0, FS_MAGIC);
    Le32At(image, 4, FS_VERSION);
    Le32At(image, 8, |inputs|);
    Le32At(image, 12, SUPERBLOCK_SIZE);
    Le32At(image, 16, DataOffset(|inputs|));
  }

  lemma SuperblockParts(count: nat)
    ensures var s := Superblock(count);
            && s[0..4] == Word(FS_MAGIC) && s[4..8] == Word(FS_VERSION) && s[8..12] == Word(count % UINT32)
            && s[12..16] == Word(SUPERBLOCK_SIZE) && s[16..20] == Word(DataOffset(count) % UINT32)
  {
    hide Word;
  }
}
