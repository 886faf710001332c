/**
  The bytes of files, and how the steps of writei() in kernel/fs.c change them.
 */
module Files {
  import opened Inodes
  import opened Params

  /** g has the blocks of f and perhaps more, and every file reads the same. */
  ghost predicate Same(f: Fs, g: Fs) {
    && g.inodes.Keys == f.inodes.Keys && |g.blocks| == |f.blocks|
    && (forall y :: y in f.inodes ==> g.inodes[y].size == f.inodes[y].size)
    && (forall y, x: nat :: y in f.inodes ==> ByteAt(g, y, x) == ByteAt(f, y, x))
    && Keeps(f, g)
  }

  /** Addresses that f has are in g. */
  ghost predicate Keeps(f: Fs, g: Fs)
    requires g.inodes.Keys == f.inodes.Keys
  {
    forall y, k :: y in f.inodes && 0 <= k < SLOTS && Addr(f, y, k) != 0 ==> Addr(g, y, k) == Addr(f, y, k)
  }

  lemma SameTwice(f: Fs, g: Fs, h: Fs)
    requires Same(f, g) && Same(g, h)
    ensures Same(f, h)
  {
  }

  lemma SetAddrSame(f: Fs, owner: map<nat, Slot>, first: nat, b: nat, i: nat, k: nat)
    requires Owned(f, owner, first) && b < |f.used| && !f.used[b]
    requires i in f.inodes && k <= NDIRECT && Addr(f, i, k) == 0
    ensures Same(f, SetAddr(Claim(f, b), i, k, b))
  {
    var g := SetAddr(Claim(f, b), i, k, b);
    forall y, x: nat | y in f.inodes ensures ByteAt(g, y, x) == ByteAt(f, y, x) {
      SetAddrByte(f, owner, first, b, i, k, y, x);
    }
    forall y, s | y in f.inodes && 0 <= s < SLOTS && Addr(f, y, s) != 0 ensures Addr(g, y, s) == Addr(f, y, s) {
      SetAddrIs(f, owner, first, b, i, k, y, s);
    }
  }

  lemma SetEntrySame(f: Fs, owner: map<nat, Slot>, first: nat, b: nat, i: nat, j: nat)
    requires Owned(f, owner, first) && b < |f.used| && !f.used[b]
    requires i in f.inodes && Addr(f, i, NDIRECT) != 0 && j < NINDIRECT && Addr(f, i, NDIRECT + 1 + j) == 0
    ensures Addr(f, i, NDIRECT) < |f.blocks| && Same(f, SetEntry(Claim(f, b), Addr(f, i, NDIRECT), j, b))
  {
    SetEntryIs(f, owner, first, b, i, j, i, 0);
    var g := SetEntry(Claim(f, b), Addr(f, i, NDIRECT), j, b);
    forall y, x: nat | y in f.inodes ensures ByteAt(g, y, x) == ByteAt(f, y, x) {
      SetEntryByte(f, owner, first, b, i, j, y, x);
    }
    forall y, s | y in f.inodes && 0 <= s < SLOTS && Addr(f, y, s) != 0 ensures Addr(g, y, s) == Addr(f, y, s) {
      SetEntryIs(f, owner, first, b, i, j, y, s);
    }
  }

  /** In g the first w bytes of src are in file i from byte off on; else f and g read the same. */
  ghost predicate Written(f: Fs, g: Fs, i: nat, off: nat, src: seq<Byte>, w: nat)
    requires w <= |src|
  {
    && g.inodes.Keys == f.inodes.Keys && |g.blocks| == |f.blocks|
    && (forall y :: y in f.inodes ==> g.inodes[y].size == f.inodes[y].size)
    && (forall y, x: nat :: y in f.inodes ==>
          ByteAt(g, y, x) == if y == i && off <= x < off + w then src[x - off] else ByteAt(f, y, x))
    && Keeps(f, g)
  }

  /** A block with the bytes d from position `at` on. */
  function Patch(b: Block, at: nat, d: seq<Byte>): (r: Block)
    requires at + |d| <= BSIZE
    ensures forall x :: 0 <= x < BSIZE ==> r[x] == if at <= x < at + |d| then d[x - at] else b[x]
  {
    b[..at] + d + b[at + |d|..]
  }

  function Patched(f: Fs, b: nat, at: nat, d: seq<Byte>): Fs
    requires b < |f.blocks| && at + |d| <= BSIZE
  {
    PutData(f, b, Patch(f.blocks[b], at, d))
  }

  /** The next c bytes are put into the block that holds byte off + w. */
  lemma PatchWritten(f: Fs, g: Fs, owner: map<nat, Slot>, first: nat, i: nat, off: nat, src: seq<Byte>, w: nat, c: nat)
    requires w + c <= |src| && Written(f, g, i, off, src, w) && Owned(g, owner, first) && i in g.inodes
    requires var o := off + w;
      o / BSIZE < MAXFILE && o % BSIZE + c <= BSIZE && BlockNo(g, i, o / BSIZE) != 0
    ensures var b := BlockNo(g, i, (off + w) / BSIZE); b < |g.blocks| && b in owner && owner[b].k != NDIRECT
    ensures var h := Patched(g, BlockNo(g, i, (off + w) / BSIZE), (off + w) % BSIZE, src[w..w + c]);
      && Written(f, h, i, off, src, w + c)
      && forall y, s :: y in g.inodes && 0 <= s < SLOTS ==> Addr(h, y, s) == Addr(g, y, s)
  {
    var o := off + w;
    var bn, at := o / BSIZE, o % BSIZE;
    var b, k := BlockNo(g, i, bn), if bn < NDIRECT then bn else bn + 1;
    assert OwnedSlot(g, owner, i, k) && OwnedBlock(g, owner, b);
    var d := Patch(g.blocks[b], at, src[w..w + c]);
    var h := PutData(g, b, d);
    forall y, x: nat | y in f.inodes
      ensures ByteAt(h, y, x) == if y == i && off <= x < off + w + c then src[x - off] else ByteAt(f, y, x)
    {
      PutDataByte(g, owner, first, i, bn, d, y, x);
      if x / BSIZE == bn {
        assert x % BSIZE - at == x - o;
        assert ByteAt(g, i, x) == g.blocks[b][x % BSIZE];
      } else {
        assert !(o <= x < o + c);
      }
    }
    forall y, s | y in f.inodes && 0 <= s < SLOTS ensures Addr(h, y, s) == Addr(g, y, s) {
      PutDataAddr(g, owner, first, b, d, y, s);
    }
  }

  lemma SameWritten(f: Fs, g: Fs, h: Fs, i: nat, off: nat, src: seq<Byte>, w: nat)
    requires w <= |src| && Written(f, g, i, off, src, w) && Same(g, h)
    ensures Written(f, h, i, off, src, w)
  {
  }

  /** dst holds the bytes of file i from byte off on. */
  ghost predicate Got(f: Fs, i: nat, off: nat, dst: seq<Byte>)
    requires i in f.inodes
  {
    forall x :: 0 <= x < |dst| ==> dst[x] == ByteAt(f, i, off + x)
  }

  /** A run of bytes of one block comes next. */
  lemma GotMore(f: Fs, i: nat, off: nat, dst: seq<Byte>, m: nat)
    requires i in f.inodes && Got(f, i, off, dst)
    requires var o := off + |dst|;
      o / BSIZE < MAXFILE && 0 < BlockNo(f, i, o / BSIZE) < |f.blocks| && o % BSIZE + m <= BSIZE
    ensures var o := off + |dst|;
      Got(f, i, off, dst + f.blocks[BlockNo(f, i, o / BSIZE)][o % BSIZE..o % BSIZE + m])
  {
    var o := off + |dst|;
    var b := BlockNo(f, i, o / BSIZE);
    var next := dst + f.blocks[b][o % BSIZE..o % BSIZE + m];
    forall x | 0 <= x < |next| ensures next[x] == ByteAt(f, i, off + x) {
      if x >= |dst| {
        assert (off + x) / BSIZE == o / BSIZE && (off + x) % BSIZE == o % BSIZE + (x - |dst|);
      }
    }
  }

  /** Every block of file i below byte `end` is there. */
  ghost predicate Filled(f: Fs, i: nat, end: nat)
    requires i in f.inodes
  {
    forall bn :: 0 <= bn < MAXFILE && bn * BSIZE < end ==> BlockNo(f, i, bn) != 0
  }

  /** The blocks of file i have no gap: a block that is there has all those before it. */
  ghost predicate Solid(f: Fs, i: nat)
    requires i in f.inodes
  {
    forall a, b :: 0 <= a < b < MAXFILE && BlockNo(f, i, b) != 0 ==> BlockNo(f, i, a) != 0
  }

  /** Files without a gap in f have none in g. */
  ghost predicate KeepsSolid(f: Fs, g: Fs) {
    forall y {:trigger Solid(f, y)} {:trigger Solid(g, y)} ::
      y in f.inodes && Solid(f, y) ==> y in g.inodes && Solid(g, y)
  }

  ghost predicate StillAt(f: Fs, g: Fs, i: nat, bn: nat)
    requires bn < MAXFILE
  {
    && i in f.inodes && i in g.inodes
    && (BlockNo(f, i, bn) != 0 ==> BlockNo(g, i, bn) == BlockNo(f, i, bn))
  }

  /** The blocks of file i stay where they are. */
  ghost predicate Still(f: Fs, g: Fs, i: nat) {
    forall bn {:trigger StillAt(f, g, i, bn)} :: 0 <= bn < MAXFILE ==> StillAt(f, g, i, bn)
  }

  lemma StillTwice(f: Fs, g: Fs, h: Fs, i: nat)
    requires Still(f, g, i) && Still(g, h, i)
    ensures Still(f, h, i)
  {
    forall bn | 0 <= bn < MAXFILE ensures StillAt(f, h, i, bn) {
      assert StillAt(f, g, i, bn) && StillAt(g, h, i, bn);
    }
  }

  lemma StillSelf(f: Fs, i: nat)
    requires i in f.inodes
    ensures Still(f, f, i)
  {
  }

  /** A file without holes has none afterwards; file i keeps its blocks. */
  ghost predicate KeptOn(f: Fs, g: Fs, i: nat) {
    KeepsSolid(f, g) && Still(f, g, i)
  }

  lemma KeptTwice(f: Fs, g: Fs, h: Fs, i: nat)
    requires KeptOn(f, g, i) && KeptOn(g, h, i)
    ensures KeptOn(f, h, i)
  {
    StillTwice(f, g, h, i);
  }

  lemma KeepsStill(f: Fs, g: Fs, h: Fs, i: nat)
    requires g.inodes.Keys == f.inodes.Keys && Keeps(f, g) && i in f.inodes && i in h.inodes
    requires h.inodes[i].addrs == g.inodes[i].addrs && h.blocks == g.blocks
    ensures Still(f, h, i)
  {
    forall bn | 0 <= bn < MAXFILE ensures StillAt(f, h, i, bn) {
      var k := if bn < NDIRECT then bn else bn + 1;
      assert Addr(h, i, k) == Addr(g, i, k);
    }
  }

  /** The next block of file i is added, and no other block of any file. */
  lemma MapSolid(f: Fs, o: map<nat, Slot>, g: Fs, p: map<nat, Slot>, first: nat, i: nat, bn: nat)
    requires Owned(f, o, first) && Owned(g, p, first) && g.inodes.Keys == f.inodes.Keys && Keeps(f, g)
    requires OnlyGained(o, p, i) && i in f.inodes && bn < MAXFILE && Filled(f, i, bn * BSIZE)
    requires forall x :: 0 <= x < MAXFILE && x != bn ==> BlockNo(g, i, x) == BlockNo(f, i, x)
    ensures KeepsSolid(f, g)
  {
    forall y | y in f.inodes && Solid(f, y) ensures Solid(g, y) {
      forall a, b | 0 <= a < b < MAXFILE && BlockNo(g, y, b) != 0 ensures BlockNo(g, y, a) != 0 {
        if y == i && b == bn {
          assert BlockNo(f, i, a) != 0;
        } else {
          if y != i { OtherBlock(f, o, g, p, first, i, y, if b < NDIRECT then b else b + 1); }
          assert BlockNo(f, y, b) != 0 && BlockNo(f, y, a) != 0;
        }
      }
    }
  }

  /** Another file has no block that it did not have. */
  lemma OtherBlock(f: Fs, o: map<nat, Slot>, g: Fs, p: map<nat, Slot>, first: nat, i: nat, y: nat, k: nat)
    requires Owned(f, o, first) && Owned(g, p, first) && g.inodes.Keys == f.inodes.Keys
    requires OnlyGained(o, p, i) && y in f.inodes && y != i && k < SLOTS && Addr(g, y, k) != 0
    ensures Addr(f, y, k) == Addr(g, y, k)
  {
    SlotBlock(g, p, first, y, k);
    assert OwnedBlock(f, o, Addr(g, y, k));
  }

  /** All addresses are the same. */
  lemma AddrsSolid(f: Fs, g: Fs)
    requires g.inodes.Keys == f.inodes.Keys
    requires forall y, s :: y in f.inodes && 0 <= s < SLOTS ==> Addr(g, y, s) == Addr(f, y, s)
    ensures KeepsSolid(f, g)
  {
    forall y | y in f.inodes && Solid(f, y) ensures Solid(g, y) {
      forall a, b | 0 <= a < b < MAXFILE && BlockNo(g, y, b) != 0 ensures BlockNo(g, y, a) != 0 {
        assert BlockNo(f, y, b) != 0 && BlockNo(f, y, a) != 0;
      }
    }
  }

  lemma FilledKept(f: Fs, g: Fs, i: nat, end: nat)
    requires i in f.inodes && g.inodes.Keys == f.inodes.Keys && Keeps(f, g) && Filled(f, i, end)
    ensures Filled(g, i, end)
  {
    forall bn | 0 <= bn < MAXFILE && bn * BSIZE < end ensures BlockNo(g, i, bn) != 0 {
      assert BlockNo(f, i, bn) != 0;
    }
  }

  lemma FilledMore(f: Fs, g: Fs, i: nat, o: nat, m: nat)
    requires i in f.inodes && g.inodes.Keys == f.inodes.Keys && Keeps(f, g)
    requires Filled(f, i, o) && o / BSIZE < MAXFILE && o % BSIZE + m <= BSIZE && BlockNo(g, i, o / BSIZE) != 0
    ensures Filled(g, i, o + m)
  {
    forall bn | 0 <= bn < MAXFILE && bn * BSIZE < o + m ensures BlockNo(g, i, bn) != 0 {
      if bn * BSIZE < o { assert BlockNo(f, i, bn) != 0; }
    }
  }

  /** The bytes d with s put over them from byte off on. */
  function Splice(d: seq<Byte>, off: nat, s: seq<Byte>): seq<Byte>
    requires off <= |d|
  {
    d[..off] + s + if off + |s| < |d| then d[off + |s|..] else []
  }

  /**
    File i of h holds what writei() leaves when it returns `tot` and has copied w bytes: a
    copy that fails part way leaves its first bytes in the block.  Other files are as in f.
   */
  ghost predicate Stored(f: Fs, h: Fs, i: nat, off: nat, src: seq<Byte>, tot: nat, w: nat) {
    && i in f.inodes && h.inodes.Keys == f.inodes.Keys && tot <= w <= |src|
    && (forall y :: y in f.inodes && y != i ==> Data(h, y) == Data(f, y))
    && var d, e := Data(f, i), Data(h, i);
       && off <= |d| && |e| == (if off + tot > |d| then off + tot else |d|)
       && forall x :: 0 <= x < |e| ==> e[x] == if off <= x < off + w then src[x - off] else d[x]
  }

  lemma StoredIs(f: Fs, g: Fs, i: nat, off: nat, src: seq<Byte>, tot: nat, w: nat)
    requires i in f.inodes && off <= f.inodes[i].size && tot <= w <= |src| && Written(f, g, i, off, src, w)
    ensures var s := f.inodes[i].size;
      Stored(f, SetSize(g, i, if off + tot > s then off + tot else s), i, off, src, tot, w)
  {
    var s := f.inodes[i].size;
    var h := SetSize(g, i, if off + tot > s then off + tot else s);
    forall y, x: nat | y in f.inodes ensures ByteAt(h, y, x) == ByteAt(g, y, x) {
    }
    forall y | y in f.inodes && y != i ensures Data(h, y) == Data(f, y) {
    }
  }

  /** Two writes, the second behind the first, are one. */
  lemma StoredTwice(f: Fs, g: Fs, h: Fs, i: nat, off: nat, src: seq<Byte>, a: nat, b: nat, w: nat)
    requires a <= |src| && Stored(f, g, i, off, src, a, a) && Stored(g, h, i, off + a, src[a..], b, w)
    ensures Stored(f, h, i, off, src, a + b, a + w)
  {
  }

  /** As Stored, or nothing happened because the file ends before byte off. */
  ghost predicate Wrote(f: Fs, h: Fs, i: nat, off: nat, src: seq<Byte>, tot: nat, w: nat) {
    && i in f.inodes
    && if off <= f.inodes[i].size then Stored(f, h, i, off, src, tot, w)
       else tot == w == 0 && h.inodes.Keys == f.inodes.Keys && forall y :: y in f.inodes ==> Data(h, y) == Data(f, y)
  }

  lemma WroteNone(f: Fs, i: nat, off: nat, src: seq<Byte>)
    requires i in f.inodes
    ensures Wrote(f, f, i, off, src, 0, 0)
  {
  }

  lemma WroteSize(f: Fs, g: Fs, i: nat, off: nat, src: seq<Byte>, n: nat)
    requires Wrote(f, g, i, off, src, n, n)
    ensures off <= f.inodes[i].size ==> off + n <= g.inodes[i].size
    ensures off > f.inodes[i].size ==> n == 0 && g.inodes[i].size == f.inodes[i].size
  {
    assert |Data(f, i)| == f.inodes[i].size && |Data(g, i)| == g.inodes[i].size;
  }

  lemma WroteMore(f: Fs, g: Fs, h: Fs, i: nat, off: nat, src: seq<Byte>, a: nat, at: nat, rest: seq<Byte>, b: nat,
                  w: nat, c: nat, d: nat)
    requires a <= |src| && at == off + a && rest == src[a..] && c == a + b && d == a + w
    requires Wrote(f, g, i, off, src, a, a) && Stored(g, h, i, at, rest, b, w)
    ensures Wrote(f, h, i, off, src, c, d)
  {
    if off <= f.inodes[i].size { StoredTwice(f, g, h, i, off, src, a, b, w); }
  }

  /** When no copy failed, the file is the old one with the bytes spliced in. */
  lemma StoredSplice(f: Fs, h: Fs, i: nat, off: nat, src: seq<Byte>, tot: nat)
    requires Stored(f, h, i, off, src, tot, tot)
    ensures Data(h, i) == Splice(Data(f, i), off, src[..tot])
  {
  }

  lemma SetSizeFull(f: Fs, g: Fs, i: nat, n: nat, y: nat)
    requires i in f.inodes && g.inodes.Keys == f.inodes.Keys && Keeps(f, g) && y in f.inodes
    requires NoHoles(f, y) && g.inodes[y].size == f.inodes[y].size && n <= MAXFILE * BSIZE
    requires Filled(g, i, n)
    ensures NoHoles(SetSize(g, i, n), y)
  {
    var h := SetSize(g, i, n);
    forall bn | 0 <= bn < MAXFILE && bn * BSIZE < h.inodes[y].size ensures BlockNo(h, y, bn) != 0 {
      assert BlockNo(h, y, bn) == BlockNo(g, y, bn);
      if y != i { assert BlockNo(f, y, bn) != 0; }
    }
  }

  /** Emptying file i leaves no holes. */
  lemma TruncFull(f: Fs, g: Fs, i: nat)
    requires g.blocks == f.blocks && i in f.inodes && g.inodes == f.inodes[i := Inode(NoAddrs(), 0)]
    ensures (forall y :: y in f.inodes ==> NoHoles(f, y)) ==> forall y :: y in g.inodes ==> NoHoles(g, y)
  {
    if forall y :: y in f.inodes ==> NoHoles(f, y) {
      forall y | y in g.inodes ensures NoHoles(g, y) {
        assert NoHoles(f, y);
        forall bn | 0 <= bn < MAXFILE && bn * BSIZE < g.inodes[y].size ensures BlockNo(g, y, bn) != 0 {
          assert BlockNo(g, y, bn) == BlockNo(f, y, bn);
        }
      }
    }
  }

  lemma TruncSolid(f: Fs, g: Fs, i: nat)
    requires g.blocks == f.blocks && i in f.inodes && g.inodes == f.inodes[i := Inode(NoAddrs(), 0)]
    ensures KeepsSolid(f, g)
  {
    forall y | y in f.inodes && Solid(f, y) ensures Solid(g, y) {
      forall a, b | 0 <= a < b < MAXFILE && BlockNo(g, y, b) != 0 ensures BlockNo(g, y, a) != 0 {
        assert BlockNo(f, y, b) != 0 && BlockNo(f, y, a) != 0;
      }
    }
  }

  /** Bytes that were copied beyond the end of the file are not part of it. */
  lemma StoredLess(f: Fs, h: Fs, i: nat, off: nat, src: seq<Byte>, tot: nat, w: nat)
    requires Stored(f, h, i, off, src, tot, w) && f.inodes[i].size <= off + tot
    ensures Stored(f, h, i, off, src, tot, tot)
  {
  }

  /** The size covers what has been filled, and nothing else. */
  lemma SizeFull(f: Fs, g: Fs, i: nat, n: nat)
    requires i in f.inodes && g.inodes.Keys == f.inodes.Keys && Keeps(f, g) && n <= MAXFILE * BSIZE && Filled(g, i, n)
    requires forall y :: y in f.inodes ==> NoHoles(f, y) && g.inodes[y].size == f.inodes[y].size
    ensures var z := f.inodes[i].size;
      forall y :: y in g.inodes ==> NoHoles(SetSize(g, i, if n > z then n else z), y)
  {
    var z := f.inodes[i].size;
    var end := if n > z then n else z;
    FilledKept(f, g, i, z);
    forall y | y in f.inodes ensures NoHoles(SetSize(g, i, end), y) {
      SetSizeFull(f, g, i, end, y);
    }
  }
}
