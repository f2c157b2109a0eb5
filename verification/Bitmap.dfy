/**
 * The bit-packed page bitmaps of kernel/mm/pmm.c and kernel/mm/vam.c: bytes changed in place by
 * shifts and masks, proved to be a set of page numbers.
 */
module Bitmap {

  /** The values of 1 << i. */
  function Mask(i: nat): bv8
    requires i < 8
  {
    if i == 0 then 1 else if i == 1 then 2 else if i == 2 then 4 else if i == 3 then 8
    else if i == 4 then 16 else if i == 5 then 32 else if i == 6 then 64 else 128
  }

  predicate Has(b: bv8, i: nat)
    requires i < 8
  {
    (b >> i) & 1 == 1
  }

  function WithBit(b: bv8, i: nat): bv8
    requires i < 8
  {
    b | ((1 as bv8) << i)
  }

  function WithoutBit(b: bv8, i: nat): bv8
    requires i < 8
  {
    b & !((1 as bv8) << i)
  }

  /** vam.c tests with the mask where pmm.c shifts the byte. */
  lemma HasForm(b: bv8, i: nat)
    requires i < 8
    ensures Has(b, i) <==> b & Mask(i) != 0
  {
    if i == 1 {
      assert (b >> 1) & 1 == 1 <==> b & 2 != 0;
    }
  }

  lemma ShiftForm(i: nat)
    requires i < 8
    ensures (1 as bv8) << i == Mask(i)
  {
  }

  lemma MaskForm(b: bv8, i: nat)
    requires i < 8
    ensures WithBit(b, i) == b | Mask(i) && WithoutBit(b, i) == b & !Mask(i)
  {
    hide Mask;
    ShiftForm(i);
  }

  lemma MasksApart(b: bv8, i: nat, j: nat)
    requires i < 8 && j < 8
    ensures (b | Mask(i)) & Mask(j) != 0 <==> i == j || b & Mask(j) != 0
    ensures (b & !Mask(i)) & Mask(j) != 0 <==> i != j && b & Mask(j) != 0
  {
  }

  lemma MaskBits(b: bv8, i: nat, j: nat)
    requires i < 8 && j < 8
    ensures Has(WithBit(b, i), j) <==> i == j || Has(b, j)
    ensures Has(WithoutBit(b, i), j) <==> i != j && Has(b, j)
  {
    hide Has, WithBit, WithoutBit, Mask;
    MaskForm(b, i);
    HasForm(b, j);
    HasForm(WithBit(b, i), j);
    HasForm(WithoutBit(b, i), j);
    MasksApart(b, i, j);
  }

  lemma FillForm(i: nat)
    requires i < 8
    ensures !Has(0, i) && Has(0xFF, i)
  {
    hide Has;
    HasForm(0, i);
    HasForm(0xFF, i);
  }

  /** Bit i of the bitmap. */
  predicate Bit(bytes: seq<bv8>, i: nat)
    requires i < 8 * |bytes|
  {
    Has(bytes[i / 8], i % 8)
  }

  lemma BitChanged(bytes: seq<bv8>, i: nat, j: nat)
    requires i < 8 * |bytes| && j < 8 * |bytes|
    ensures Bit(bytes[i / 8 := WithBit(bytes[i / 8], i % 8)], j) <==> i == j || Bit(bytes, j)
    ensures Bit(bytes[i / 8 := WithoutBit(bytes[i / 8], i % 8)], j) <==> i != j && Bit(bytes, j)
  {
    hide Has, WithBit, WithoutBit;
    MaskBits(bytes[i / 8], i % 8, j % 8);
  }

  function Pages(first: nat, count: nat): set<nat> {
    set i: nat {:trigger i in Pages(first, count)} | first <= i < first + count
  }

  class Bitmap {
    const bytes: array<bv8>
    const size: nat

    ghost predicate Valid() {
      size <= 8 * bytes.Length
    }

    ghost function Used(): set<nat>
      requires Valid()
      reads bytes
    {
      set i: nat | i < size && Bit(bytes[..], i)
    }

    constructor (size: nat, fill: bv8)
      ensures Valid() && this.size == size && bytes.Length == (size + 7) / 8 && fresh(bytes)
      ensures fill == 0 ==> Used() == {}
      ensures fill == 0xFF ==> Used() == Pages(0, size)
    {
      this.size := size;
      bytes := new bv8[(size + 7) / 8](_ => fill);
      new;
      hide Has;
      forall i: nat | i < size ensures Bit(bytes[..], i) == Has(fill, i % 8) {
        FillForm(i % 8);
      }
      forall i: nat | i < size ensures !Has(0, i % 8) && Has(0xFF, i % 8) {
        FillForm(i % 8);
      }
    }

    method Test(i: nat) returns (used: bool)
      requires Valid() && i < size
      ensures used <==> i in Used()
    {
      used := Has(bytes[i / 8], i % 8);
    }

    method Set(i: nat)
      requires Valid() && i < size
      modifies bytes
      ensures Used() == old(Used()) + {i}
    {
      hide Has, WithBit, Bit;
      ghost var before := bytes[..];
      bytes[i / 8] := WithBit(bytes[i / 8], i % 8);
      assert bytes[..] == before[i / 8 := WithBit(before[i / 8], i % 8)];
      forall j: nat | j < size ensures Bit(bytes[..], j) <==> i == j || Bit(before, j) {
        BitChanged(before, i, j);
      }
    }

    method Clear(i: nat)
      requires Valid() && i < size
      modifies bytes
      ensures Used() == old(Used()) - {i}
    {
      hide Has, WithoutBit, Bit;
      ghost var before := bytes[..];
      bytes[i / 8] := WithoutBit(bytes[i / 8], i % 8);
      assert bytes[..] == before[i / 8 := WithoutBit(before[i / 8], i % 8)];
      forall j: nat | j < size ensures Bit(bytes[..], j) <==> i != j && Bit(before, j) {
        BitChanged(before, i, j);
      }
    }

    method SetRange(first: nat, count: nat)
      requires Valid() && first + count <= size
      modifies bytes
      ensures Used() == old(Used()) + Pages(first, count)
    {
      for n := 0 to count
        invariant Used() == old(Used()) + Pages(first, n)
      {
        Set(first + n);
      }
    }

    method ClearRange(first: nat, count: nat)
      requires Valid() && first + count <= size
      modifies bytes
      ensures Used() == old(Used()) - Pages(first, count)
    {
      for n := 0 to count
        invariant Used() == old(Used()) - Pages(first, n)
      {
        Clear(first + n);
      }
    }

    method RangeFree(first: nat, count: nat) returns (free: bool)
      requires Valid() && first + count <= size
      ensures free <==> forall i | first <= i < first + count :: i !in Used()
    {
      for n := 0 to count
        invariant forall i | first <= i < first + n :: i !in Used()
      {
        var used := Test(first + n);
        if used { return false; }
      }
      return true;
    }

    /** The lowest clear bit, or `size` when all are set. */
    method FirstClear() returns (i: nat)
      requires Valid()
      ensures i <= size && (forall j: nat | j < i :: j in Used()) && (i < size ==> i !in Used())
    {
      i := 0;
      while i < size
        invariant i <= size && forall j: nat | j < i :: j in Used()
      {
        var used := Test(i);
        if !used { return; }
        i := i + 1;
      }
    }
  }
}
