/** Bytes and little-endian words, as the x86 reads and writes the fields of packed structures. */
module Bytes {
  type byte = x: int | 0 <= x < 256

  const UINT32: nat := 0x1_0000_0000

  function Le16(s: seq<byte>, o: nat): nat
    requires o + 2 <= |s|
  {
    (s[o] as int) + 0x100 * (s[o + 1] as int)
  }

  function Le32(s: seq<byte>, o: nat): (w: nat)
    requires o + 4 <= |s|
    ensures w < UINT32
  {
    (s[o] as int) + 0x100 * (s[o + 1] as int) + 0x1_0000 * (s[o + 2] as int) + 0x100_0000 * (s[o + 3] as int)
  }

  /** The four bytes of a uint32_t. */
  function Word(w: nat): (s: seq<byte>)
    requires w < UINT32
    ensures |s| == 4
  {
    [w % 0x100, w / 0x100 % 0x100, w / 0x1_0000 % 0x100, w / 0x100_0000]
  }

  lemma WordRoundTrip(w: nat)
    requires w < UINT32
    ensures Le32(Word(w), 0) == w
  {
    var a, b, c := w / 0x100, w / 0x1_0000, w / 0x100_0000;
    assert a / 0x100 == b && b / 0x100 == c && c < 0x100;
    assert w == w % 0x100 + 0x100 * a && a == a % 0x100 + 0x100 * b && b == b % 0x100 + 0x100 * c;
  }

  lemma Le32At(s: seq<byte>, o: nat, w: nat)
    requires o + 4 <= |s| && w < UINT32 && s[o..o + 4] == Word(w)
    ensures Le32(s, o) == w
  {
    WordRoundTrip(w);
    var t := s[o..o + 4];
    assert t[0] == s[o] && t[1] == s[o + 1] && t[2] == s[o + 2] && t[3] == s[o + 3];
  }

  /** Words and halves are stored low byte first. */
  lemma LowByteFirst(s: seq<byte>, o: nat)
    requires o + 4 <= |s|
    ensures Le32(s, o) % 0x100 == s[o] && Le32(s, o) / 0x100_0000 == s[o + 3]
    ensures Le16(s, o) % 0x100 == s[o] && Le16(s, o) / 0x100 == s[o + 1]
  {
    var a, b, c, d := s[o] as nat, s[o + 1] as nat, s[o + 2] as nat, s[o + 3] as nat;
    assert a + 0x100 * (b + 0x100 * c + 0x1_0000 * d) == Le32(s, o);
  }

  // ----- slices -----

  lemma SliceOfPrefix(s: seq<byte>, t: seq<byte>, a: nat, b: nat)
    requires a <= b <= |s|
    ensures (s + t)[a..b] == s[a..b]
  {
  }

  lemma SliceOfMiddle(s: seq<byte>, t: seq<byte>, u: seq<byte>, a: nat, b: nat)
    requires a <= b <= |t|
    ensures (s + t + u)[|s| + a..|s| + b] == t[a..b]
  {
  }

  lemma SliceOfSlice(s: seq<byte>, a: nat, b: nat, c: nat, e: nat)
    requires a <= b <= |s| && c <= e <= b - a
    ensures s[a + c..a + e] == s[a..b][c..e]
  {
    var t := s[a..b];
    assert forall k | 0 <= k < e - c :: s[a + c..a + e][k] == t[c..e][k];
  }
}
