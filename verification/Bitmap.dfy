/**
 The free-block bitmap (balloc and bfree of kernel/fs.c): bit bi % 8 of byte bi / 8 of a bitmap
 block stands for block bi of the BPB blocks that the bitmap block covers.
 */
module Bitmap {
  import opened FileBlocks

  const BPB: nat := 8192

  type Map = seq<seq<bv8>>

  /** 1 << k */
  function Mask(k: nat): (m: bv8)
    requires k < 8
    ensures m != 0
  {
    match k
    case 0 => 0x01 case 1 => 0x02 case 2 => 0x04 case 3 => 0x08
    case 4 => 0x10 case 5 => 0x20 case 6 => 0x40 case _ => 0x80
  }

  lemma MasksDisjoint(k: nat, j: nat)
    requires k < 8 && j < 8 && k != j
    ensures Mask(k) & Mask(j) == 0
  {
  }

  predicate Bit(x: bv8, k: nat)
    requires k < 8
  {
    x & Mask(k) != 0
  }

  function SetBit(x: bv8, k: nat): (y: bv8)
    requires k < 8
  {
    x | Mask(k)
  }

  function ClearBit(x: bv8, k: nat): (y: bv8)
    requires k < 8
  {
    x & !Mask(k)
  }

  lemma BitAlgebra(x: bv8, m: bv8, n: bv8)
    ensures (x | m) & m == m && (x & !m) & m == 0
    ensures m & n == 0 ==> (x | m) & n == x & n && (x & !m) & n == x & n
  {
  }

  lemma SetBitExact(x: bv8, k: nat, j: nat)
    requires k < 8 && j < 8
    ensures Bit(SetBit(x, k), j) <==> j == k || Bit(x, j)
    ensures Bit(ClearBit(x, k), j) <==> j != k && Bit(x, j)
  {
    BitAlgebra(x, Mask(k), Mask(j));
    if j != k {
      MasksDisjoint(k, j);
    }
  }

  ghost predicate Shape(m: Map, size: nat) {
    && size <= |m| * BPB
    && forall i :: 0 <= i < |m| ==> |m[i]| == BSIZE
  }

  /** Is block b marked in use? */
  ghost predicate Used(m: Map, size: nat, b: nat)
    requires Shape(m, size) && b < size
  {
    Bit(m[b / BPB][b % BPB / 8], b % BPB % 8)
  }

  /** The bitmap with the byte that holds block b's bit replaced. */
  function PutByte(m: Map, b: nat, x: bv8): Map
    requires b / BPB < |m| && b % BPB / 8 < |m[b / BPB]|
  {
    m[b / BPB := m[b / BPB][b % BPB / 8 := x]]
  }

  /** Setting or clearing the bit of block b changes the bit of no other block. */
  lemma PutByteExact(m: Map, size: nat, b: nat, set_: bool)
    requires Shape(m, size) && b < size
    ensures var x := m[b / BPB][b % BPB / 8]; var k := b % BPB % 8;
      var m' := PutByte(m, b, if set_ then SetBit(x, k) else ClearBit(x, k));
      && Shape(m', size) && Used(m', size, b) == set_
      && forall a :: 0 <= a < size && a != b ==> Used(m', size, a) == Used(m, size, a)
  {
    var x, k := m[b / BPB][b % BPB / 8], b % BPB % 8;
    var y := if set_ then SetBit(x, k) else ClearBit(x, k);
    var m' := PutByte(m, b, y);
    SetBitExact(x, k, k);
    forall a | 0 <= a < size && a != b ensures Used(m', size, a) == Used(m, size, a) {
      SetBitExact(x, k, a % BPB % 8);
      if a / BPB == b / BPB && a % BPB / 8 == b % BPB / 8 {
        assert a % BPB % 8 != k;
      }
    }
  }
}
