/**
  The free bit map of kernel/fs.c: bitmap blocks of BSIZE bytes, one bit for each disk block.
 */
module Bitmap {
  import opened Params

  type BitBlock = s: seq<bv8> | |s| == BSIZE witness seq(BSIZE, i => 0)

  type Map = seq<BitBlock>

  function One(k: nat): bv8
    requires k < 8
  {
    (1 as bv8) << k
  }

  function Mask(bi: nat): bv8 {
    One(bi % 8)
  }

  /** Bit bi of one bitmap block, and the block with that bit set or cleared. */
  predicate BitIn(blk: BitBlock, bi: nat)
    requires bi < BPB
  {
    blk[bi / 8] & Mask(bi) != 0
  }

  function SetIn(blk: BitBlock, bi: nat): BitBlock
    requires bi < BPB
  {
    blk[bi / 8 := blk[bi / 8] | Mask(bi)]
  }

  function ClearIn(blk: BitBlock, bi: nat): BitBlock
    requires bi < BPB
  {
    blk[bi / 8 := blk[bi / 8] & !Mask(bi)]
  }

  /** The bit of disk block b. */
  predicate Bit(m: Map, b: nat)
    requires b < |m| * BPB
  {
    BitIn(m[b / BPB], b % BPB)
  }

  function Set(m: Map, b: nat): Map
    requires b < |m| * BPB
  {
    m[b / BPB := SetIn(m[b / BPB], b % BPB)]
  }

  function Clear(m: Map, b: nat): Map
    requires b < |m| * BPB
  {
    m[b / BPB := ClearIn(m[b / BPB], b % BPB)]
  }

  lemma ByteBits(x: bv8, j: nat, k: nat)
    requires j < 8 && k < 8
    ensures (x | One(j)) & One(k) != 0 <==> j == k || x & One(k) != 0
    ensures (x & !One(j)) & One(k) != 0 <==> j != k && x & One(k) != 0
  {
    assert j == 0 || j == 1 || j == 2 || j == 3 || j == 4 || j == 5 || j == 6 || j == 7;
    assert k == 0 || k == 1 || k == 2 || k == 3 || k == 4 || k == 5 || k == 6 || k == 7;
  }

  /** In one byte, a mask sets and clears its own bit and no other. */
  lemma MaskBits(x: bv8, j: nat, k: nat)
    ensures (x | Mask(j)) & Mask(k) != 0 <==> j % 8 == k % 8 || x & Mask(k) != 0
    ensures (x & !Mask(j)) & Mask(k) != 0 <==> j % 8 != k % 8 && x & Mask(k) != 0
  {
    ByteBits(x, j % 8, k % 8);
  }

  lemma SetInIs(blk: BitBlock, i: nat, j: nat)
    requires i < BPB && j < BPB
    ensures BitIn(SetIn(blk, i), j) <==> i == j || BitIn(blk, j)
    ensures BitIn(ClearIn(blk, i), j) <==> i != j && BitIn(blk, j)
  {
    if i / 8 == j / 8 {
      assert i == j <==> i % 8 == j % 8;
      MaskBits(blk[i / 8], i, j);
    }
  }

  /** Set and Clear change the bit of block b and no other. */
  lemma SetIs(m: Map, b: nat, c: nat)
    requires b < |m| * BPB && c < |m| * BPB
    ensures Bit(Set(m, b), c) <==> b == c || Bit(m, c)
    ensures Bit(Clear(m, b), c) <==> b != c && Bit(m, c)
  {
    if b / BPB == c / BPB {
      assert b == c <==> b % BPB == c % BPB;
      SetInIs(m[b / BPB], b % BPB, c % BPB);
    }
  }

  /** The map m says which blocks are used. */
  ghost predicate Says(m: Map, used: seq<bool>) {
    |used| <= |m| * BPB && forall b {:trigger Bit(m, b)} :: 0 <= b < |used| ==> used[b] == Bit(m, b)
  }

  lemma SetSays(m: Map, used: seq<bool>, b: nat)
    requires Says(m, used) && b < |used|
    ensures Says(Set(m, b), used[b := true]) && Says(Clear(m, b), used[b := false])
  {
    forall c | 0 <= c < |used|
      ensures used[b := true][c] == Bit(Set(m, b), c) && used[b := false][c] == Bit(Clear(m, b), c)
    {
      SetIs(m, b, c);
    }
  }
}
