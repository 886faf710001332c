/**
  Inodes and the disk blocks they refer to, as kernel/fs.c lays them out: twelve direct
  block addresses, then the address of a block of further addresses.

  The fields of Fs are the current contents as the buffer cache and the in-memory inodes
  show them.  Address 0 means no block.
 */
module Inodes {
  import opened Params

  const NDIRECT: nat := 12
  const NINDIRECT: nat := 256
  const MAXFILE: nat := NDIRECT + NINDIRECT

  /** Slots of an inode: its addresses, the last being the indirect block, then that block's entries. */
  const SLOTS: nat := NDIRECT + 1 + NINDIRECT

  type Byte = x: nat | x < 256

  type Block = s: seq<Byte> | |s| == BSIZE witness seq(BSIZE, i => 0)

  type Addrs = s: seq<nat> | |s| == NDIRECT + 1 witness seq(NDIRECT + 1, i => 0)

  datatype Inode = Inode(addrs: Addrs, size: nat)

  datatype Slot = Slot(inum: nat, k: nat)

  datatype Fs = Fs(used: seq<bool>, blocks: seq<Block>, inodes: map<nat, Inode>)

  function Zeros(): Block {
    seq(BSIZE, i => 0)
  }

  /** The j-th 32-bit word of a block, stored low byte first. */
  function Word(b: Block, j: nat): nat
    requires j < NINDIRECT
  {
    var b0: nat, b1: nat, b2: nat, b3: nat := b[4 * j], b[4 * j + 1], b[4 * j + 2], b[4 * j + 3];
    b0 + 256 * b1 + 65536 * b2 + 16777216 * b3
  }

  function PutWord(b: Block, j: nat, w: nat): Block
    requires j < NINDIRECT
  {
    b[4 * j := w % 256][4 * j + 1 := w / 256 % 256][4 * j + 2 := w / 65536 % 256][4 * j + 3 := w / 16777216 % 256]
  }

  lemma Digits(w: nat)
    requires w < 0x1_0000_0000
    ensures w == w % 256 + 256 * (w / 256 % 256) + 65536 * (w / 65536 % 256) + 16777216 * (w / 16777216 % 256)
  {
  }

  lemma PutWordIs(b: Block, j: nat, w: nat, i: nat)
    requires j < NINDIRECT && i < NINDIRECT && w < 0x1_0000_0000
    ensures Word(PutWord(b, j, w), i) == if i == j then w else Word(b, i)
  {
    Digits(w);
  }

  /** The address in slot k of inode i. */
  function Addr(f: Fs, i: nat, k: nat): nat
    requires i in f.inodes && k < SLOTS
  {
    var a := f.inodes[i].addrs;
    if k <= NDIRECT then a[k]
    else if a[NDIRECT] == 0 || a[NDIRECT] >= |f.blocks| then 0
    else Word(f.blocks[a[NDIRECT]], k - NDIRECT - 1)
  }

  /** The block of slot k is in use, and `owner` knows the slot as its one owner. */
  ghost predicate OwnedSlot(f: Fs, owner: map<nat, Slot>, i: nat, k: nat)
    requires i in f.inodes && k < SLOTS
  {
    var b := Addr(f, i, k);
    b != 0 ==> b in owner && owner[b] == Slot(i, k)
  }

  ghost predicate OwnedBlock(f: Fs, owner: map<nat, Slot>, b: nat)
    requires b in owner
  {
    var s := owner[b];
    0 < b < |f.blocks| && s.inum in f.inodes && s.k < SLOTS && Addr(f, s.inum, s.k) == b
  }

  /** Every block in use, other than the first `first` blocks, is in exactly one slot of one inode. */
  ghost predicate Owned(f: Fs, owner: map<nat, Slot>, first: nat) {
    && 0 < first <= |f.blocks| == |f.used| < 0x1_0000_0000
    && (forall i, k :: i in f.inodes && 0 <= k < SLOTS ==> OwnedSlot(f, owner, i, k))
    && (forall b :: b in owner ==> b >= first && OwnedBlock(f, owner, b))
    && (forall b :: 0 <= b < |f.used| ==> (f.used[b] <==> b < first || b in owner))
  }

  lemma SlotBlock(f: Fs, owner: map<nat, Slot>, first: nat, i: nat, k: nat)
    requires Owned(f, owner, first) && i in f.inodes && k < SLOTS && Addr(f, i, k) != 0
    ensures var b := Addr(f, i, k); first <= b < |f.blocks| && f.used[b] && b in owner && owner[b] == Slot(i, k)
  {
    assert OwnedSlot(f, owner, i, k) && OwnedBlock(f, owner, Addr(f, i, k));
  }

  /** balloc(): block b is taken and cleared. */
  function Claim(f: Fs, b: nat): Fs
    requires b < |f.used| && b < |f.blocks|
  {
    f.(used := f.used[b := true], blocks := f.blocks[b := Zeros()])
  }

  function SetAddr(f: Fs, i: nat, k: nat, b: nat): Fs
    requires i in f.inodes && k <= NDIRECT
  {
    f.(inodes := f.inodes[i := f.inodes[i].(addrs := f.inodes[i].addrs[k := b])])
  }

  function SetEntry(f: Fs, p: nat, j: nat, b: nat): Fs
    requires p < |f.blocks| && j < NINDIRECT
  {
    f.(blocks := f.blocks[p := PutWord(f.blocks[p], j, b)])
  }

  lemma ZerosIs(j: nat)
    requires j < NINDIRECT
    ensures Word(Zeros(), j) == 0
  {
  }

  /** Taking a free block changes no slot. */
  lemma ClaimAddr(f: Fs, owner: map<nat, Slot>, first: nat, b: nat, i: nat, k: nat)
    requires Owned(f, owner, first) && b < |f.used| && !f.used[b] && i in f.inodes && k < SLOTS
    ensures Addr(Claim(f, b), i, k) == Addr(f, i, k)
  {
    assert OwnedSlot(f, owner, i, NDIRECT);
  }

  lemma SetAddrIs(f: Fs, owner: map<nat, Slot>, first: nat, b: nat, i: nat, k: nat, x: nat, y: nat)
    requires Owned(f, owner, first) && b < |f.used| && !f.used[b]
    requires i in f.inodes && k <= NDIRECT && Addr(f, i, k) == 0 && x in f.inodes && y < SLOTS
    ensures Addr(SetAddr(Claim(f, b), i, k, b), x, y) == if x == i && y == k then b else Addr(f, x, y)
  {
    ClaimAddr(f, owner, first, b, x, y);
    if x == i && k == NDIRECT && y > k { ZerosIs(y - k - 1); }
  }

  /** bmap() puts a fresh block into an empty address of the inode. */
  lemma SetAddrOwned(f: Fs, owner: map<nat, Slot>, first: nat, b: nat, i: nat, k: nat)
    requires Owned(f, owner, first) && b < |f.used| && !f.used[b]
    requires i in f.inodes && k <= NDIRECT && Addr(f, i, k) == 0
    ensures Owned(SetAddr(Claim(f, b), i, k, b), owner[b := Slot(i, k)], first)
  {
    var g, o := SetAddr(Claim(f, b), i, k, b), owner[b := Slot(i, k)];
    forall x, y | x in g.inodes && 0 <= y < SLOTS ensures OwnedSlot(g, o, x, y) {
      SetAddrIs(f, owner, first, b, i, k, x, y);
      assert OwnedSlot(f, owner, x, y);
    }
    forall c | c in o ensures c >= first && OwnedBlock(g, o, c) {
      if c != b { assert OwnedBlock(f, owner, c); }
      SetAddrIs(f, owner, first, b, i, k, o[c].inum, o[c].k);
    }
  }

  lemma SetEntryIs(f: Fs, owner: map<nat, Slot>, first: nat, b: nat, i: nat, j: nat, x: nat, y: nat)
    requires Owned(f, owner, first) && b < |f.used| && !f.used[b]
    requires i in f.inodes && Addr(f, i, NDIRECT) != 0 && j < NINDIRECT && x in f.inodes && y < SLOTS
    ensures var p := Addr(f, i, NDIRECT); p < |f.blocks| && p != b
    ensures Addr(SetEntry(Claim(f, b), Addr(f, i, NDIRECT), j, b), x, y) ==
      if x == i && y == NDIRECT + 1 + j then b else Addr(f, x, y)
  {
    assert OwnedSlot(f, owner, i, NDIRECT) && OwnedBlock(f, owner, Addr(f, i, NDIRECT));
    assert OwnedSlot(f, owner, x, NDIRECT);
    ClaimAddr(f, owner, first, b, x, y);
    if y > NDIRECT {
      PutWordIs(f.blocks[Addr(f, i, NDIRECT)], j, b, y - NDIRECT - 1);
    }
  }

  /** bmap() puts a fresh block into an empty entry of the indirect block. */
  lemma SetEntryOwned(f: Fs, owner: map<nat, Slot>, first: nat, b: nat, i: nat, j: nat)
    requires Owned(f, owner, first) && b < |f.used| && !f.used[b]
    requires i in f.inodes && Addr(f, i, NDIRECT) != 0 && j < NINDIRECT && Addr(f, i, NDIRECT + 1 + j) == 0
    ensures Addr(f, i, NDIRECT) < |f.blocks|
    ensures Owned(SetEntry(Claim(f, b), Addr(f, i, NDIRECT), j, b), owner[b := Slot(i, NDIRECT + 1 + j)], first)
  {
    SetEntryIs(f, owner, first, b, i, j, i, 0);
    var g := SetEntry(Claim(f, b), Addr(f, i, NDIRECT), j, b);
    var o := owner[b := Slot(i, NDIRECT + 1 + j)];
    forall x, y | x in g.inodes && 0 <= y < SLOTS ensures OwnedSlot(g, o, x, y) {
      SetEntryIs(f, owner, first, b, i, j, x, y);
      assert OwnedSlot(f, owner, x, y);
    }
    forall c | c in o ensures c >= first && OwnedBlock(g, o, c) {
      if c != b { assert OwnedBlock(f, owner, c); }
      SetEntryIs(f, owner, first, b, i, j, o[c].inum, o[c].k);
    }
  }

  // --- Giving blocks back ---

  function Release(f: Fs, b: nat): Fs
    requires b < |f.used|
  {
    f.(used := f.used[b := false])
  }

  /** Entry slots of inode x below `lo` were given back but are still in the indirect block. */
  ghost predicate Stale(x: nat, lo: nat, s: Slot) {
    s.inum == x && NDIRECT < s.k <= NDIRECT + lo
  }

  ghost predicate OwnedBut(f: Fs, owner: map<nat, Slot>, first: nat, x: nat, lo: nat) {
    && 0 < first <= |f.blocks| == |f.used| < 0x1_0000_0000
    && (forall i, k :: i in f.inodes && 0 <= k < SLOTS && !Stale(x, lo, Slot(i, k)) ==> OwnedSlot(f, owner, i, k))
    && (forall b :: b in owner ==> b >= first && OwnedBlock(f, owner, b) && !Stale(x, lo, owner[b]))
    && (forall b :: 0 <= b < |f.used| ==> (f.used[b] <==> b < first || b in owner))
  }

  /** `rest` is `owner` without some blocks of inode x. */
  ghost predicate OnlyLost(owner: map<nat, Slot>, rest: map<nat, Slot>, x: nat) {
    && (forall b :: b in rest ==> b in owner && rest[b] == owner[b])
    && (forall b :: b in owner && owner[b].inum != x ==> b in rest)
  }

  /** Blocks gained an owner only in inode x. */
  ghost predicate OnlyGained(owner: map<nat, Slot>, more: map<nat, Slot>, x: nat) {
    forall b :: b in more && more[b].inum != x ==> b in owner && owner[b] == more[b]
  }

  lemma LostOne(owner: map<nat, Slot>, rest: map<nat, Slot>, x: nat, b: nat)
    requires OnlyLost(owner, rest, x) && b in rest && rest[b].inum == x
    ensures OnlyLost(owner, rest - {b}, x)
  {
  }

  lemma LostBoth(a: map<nat, Slot>, b: map<nat, Slot>, c: map<nat, Slot>, x: nat)
    requires OnlyLost(a, b, x) && OnlyLost(b, c, x)
    ensures OnlyLost(a, c, x)
  {
  }

  function NoAddrs(): Addrs {
    seq(NDIRECT + 1, k => 0)
  }

  lemma EmptyOwnsNone(f: Fs, owner: map<nat, Slot>, first: nat, x: nat)
    requires Owned(f, owner, first) && x in f.inodes && f.inodes[x].addrs == NoAddrs()
    ensures forall b :: b in owner ==> owner[b].inum != x
  {
    forall b | b in owner ensures owner[b].inum != x {
      assert OwnedBlock(f, owner, b);
    }
  }

  /** What a truncation frees: exactly the blocks that inode x owned. */
  lemma TruncFrees(f: Fs, owner: map<nat, Slot>, g: Fs, rest: map<nat, Slot>, first: nat, x: nat, b: nat)
    requires Owned(f, owner, first) && Owned(g, rest, first) && |f.used| == |g.used| && b < |f.used|
    requires OnlyLost(owner, rest, x) && forall c :: c in rest ==> rest[c].inum != x
    ensures g.used[b] <==> f.used[b] && !(b in owner && owner[b].inum == x)
  {
  }

  /** At most inode x differs. */
  ghost predicate OnlyInode(a: map<nat, Inode>, b: map<nat, Inode>, x: nat) {
    x in a && b.Keys == a.Keys && forall y :: y in a && y != x ==> b[y] == a[y]
  }

  lemma FreeAddrOwned(f: Fs, owner: map<nat, Slot>, first: nat, x: nat, k: nat)
    requires Owned(f, owner, first) && x in f.inodes && k < NDIRECT && Addr(f, x, k) != 0
    ensures var b := Addr(f, x, k);
      && b < |f.used| && f.used[b] && b in owner && owner[b].inum == x
      && Owned(SetAddr(Release(f, b), x, k, 0), owner - {b}, first)
  {
    var b := Addr(f, x, k);
    assert OwnedSlot(f, owner, x, k) && OwnedBlock(f, owner, b);
    var g, o := SetAddr(Release(f, b), x, k, 0), owner - {b};
    forall i, j | i in g.inodes && 0 <= j < SLOTS ensures OwnedSlot(g, o, i, j) {
      assert OwnedSlot(f, owner, i, j);
    }
    forall c | c in o ensures c >= first && OwnedBlock(g, o, c) {
      assert OwnedBlock(f, owner, c);
    }
  }

  lemma FreeEntryOwned(f: Fs, owner: map<nat, Slot>, first: nat, x: nat, lo: nat)
    requires OwnedBut(f, owner, first, x, lo) && x in f.inodes && lo < NINDIRECT
    ensures var b := Addr(f, x, NDIRECT + 1 + lo);
      && (b == 0 ==> OwnedBut(f, owner, first, x, lo + 1))
      && (b != 0 ==> b < |f.used| && f.used[b] && b in owner && owner[b].inum == x
                     && OwnedBut(Release(f, b), owner - {b}, first, x, lo + 1))
  {
    var k := NDIRECT + 1 + lo;
    var b := Addr(f, x, k);
    assert OwnedSlot(f, owner, x, k);
    if b != 0 {
      assert OwnedBlock(f, owner, b);
      var g, o := Release(f, b), owner - {b};
      forall i, j | i in g.inodes && 0 <= j < SLOTS && !Stale(x, lo + 1, Slot(i, j)) ensures OwnedSlot(g, o, i, j) {
        assert OwnedSlot(f, owner, i, j) && Addr(g, i, j) == Addr(f, i, j);
      }
      forall c | c in o ensures c >= first && OwnedBlock(g, o, c) && !Stale(x, lo + 1, o[c]) {
        assert OwnedBlock(f, owner, c);
      }
    } else {
      forall c | c in owner ensures !Stale(x, lo + 1, owner[c]) {
        assert OwnedBlock(f, owner, c);
      }
    }
  }

  /** Last, the indirect block itself goes, and with it all its entries. */
  lemma FreeIndirectOwned(f: Fs, owner: map<nat, Slot>, first: nat, x: nat)
    requires OwnedBut(f, owner, first, x, NINDIRECT) && x in f.inodes && Addr(f, x, NDIRECT) != 0
    ensures var b := Addr(f, x, NDIRECT);
      && b < |f.used| && f.used[b] && b in owner && owner[b].inum == x
      && Owned(SetAddr(Release(f, b), x, NDIRECT, 0), owner - {b}, first)
  {
    var b := Addr(f, x, NDIRECT);
    assert OwnedSlot(f, owner, x, NDIRECT) && OwnedBlock(f, owner, b);
    var g, o := SetAddr(Release(f, b), x, NDIRECT, 0), owner - {b};
    forall i, j | i in g.inodes && 0 <= j < SLOTS ensures OwnedSlot(g, o, i, j) {
      if i != x || j < NDIRECT { assert OwnedSlot(f, owner, i, j) && Addr(g, i, j) == Addr(f, i, j); }
    }
    forall c | c in o ensures c >= first && OwnedBlock(g, o, c) {
      assert OwnedBlock(f, owner, c);
    }
  }

  function SetSize(f: Fs, i: nat, n: nat): Fs
    requires i in f.inodes
  {
    f.(inodes := f.inodes[i := f.inodes[i].(size := n)])
  }

  lemma SetSizeOwned(f: Fs, owner: map<nat, Slot>, first: nat, i: nat, n: nat)
    requires Owned(f, owner, first) && i in f.inodes
    ensures Owned(SetSize(f, i, n), owner, first)
  {
    var g := SetSize(f, i, n);
    forall x, k | x in g.inodes && 0 <= k < SLOTS ensures OwnedSlot(g, owner, x, k) {
      assert OwnedSlot(f, owner, x, k);
    }
    forall b | b in owner ensures b >= first && OwnedBlock(g, owner, b) {
      assert OwnedBlock(f, owner, b);
    }
  }

  // --- File contents ---

  /** The address of the bn-th block of a file. */
  function BlockNo(f: Fs, i: nat, bn: nat): nat
    requires i in f.inodes && bn < MAXFILE
  {
    Addr(f, i, if bn < NDIRECT then bn else bn + 1)
  }

  /** Byte x of file i; a missing block counts as zeros. */
  function ByteAt(f: Fs, i: nat, x: nat): Byte
    requires i in f.inodes
  {
    if x / BSIZE >= MAXFILE then 0
    else
      var b := BlockNo(f, i, x / BSIZE);
      if b == 0 || b >= |f.blocks| then 0 else f.blocks[b][x % BSIZE]
  }

  function Data(f: Fs, i: nat): (d: seq<Byte>)
    requires i in f.inodes
    ensures |d| == f.inodes[i].size
  {
    seq(f.inodes[i].size, x requires 0 <= x => ByteAt(f, i, x))
  }

  /** Every block below the size of a file is there. */
  ghost predicate NoHoles(f: Fs, i: nat)
    requires i in f.inodes
  {
    && f.inodes[i].size <= MAXFILE * BSIZE
    && forall bn :: 0 <= bn < MAXFILE && bn * BSIZE < f.inodes[i].size ==> BlockNo(f, i, bn) != 0
  }

  /** Putting a fresh block into an empty address changes no byte of any file. */
  lemma SetAddrByte(f: Fs, owner: map<nat, Slot>, first: nat, b: nat, i: nat, k: nat, y: nat, x: nat)
    requires Owned(f, owner, first) && b < |f.used| && !f.used[b]
    requires i in f.inodes && k <= NDIRECT && Addr(f, i, k) == 0 && y in f.inodes
    ensures ByteAt(SetAddr(Claim(f, b), i, k, b), y, x) == ByteAt(f, y, x)
  {
    if x / BSIZE < MAXFILE {
      var s := if x / BSIZE < NDIRECT then x / BSIZE else x / BSIZE + 1;
      SetAddrIs(f, owner, first, b, i, k, y, s);
      assert OwnedSlot(f, owner, y, s);
    }
  }

  lemma SetEntryByte(f: Fs, owner: map<nat, Slot>, first: nat, b: nat, i: nat, j: nat, y: nat, x: nat)
    requires Owned(f, owner, first) && b < |f.used| && !f.used[b]
    requires i in f.inodes && Addr(f, i, NDIRECT) != 0 && j < NINDIRECT && Addr(f, i, NDIRECT + 1 + j) == 0
    requires y in f.inodes
    ensures Addr(f, i, NDIRECT) < |f.blocks|
    ensures ByteAt(SetEntry(Claim(f, b), Addr(f, i, NDIRECT), j, b), y, x) == ByteAt(f, y, x)
  {
    SetEntryIs(f, owner, first, b, i, j, y, 0);
    if x / BSIZE < MAXFILE {
      var s := if x / BSIZE < NDIRECT then x / BSIZE else x / BSIZE + 1;
      SetEntryIs(f, owner, first, b, i, j, y, s);
      assert OwnedSlot(f, owner, y, s) && OwnedSlot(f, owner, i, NDIRECT);
    }
  }

  function PutData(f: Fs, b: nat, d: Block): Fs
    requires b < |f.blocks|
  {
    f.(blocks := f.blocks[b := d])
  }

  /** Writing a data block moves no block. */
  lemma PutDataAddr(f: Fs, owner: map<nat, Slot>, first: nat, b: nat, d: Block, i: nat, k: nat)
    requires Owned(f, owner, first) && b in owner && owner[b].k != NDIRECT && i in f.inodes && k < SLOTS
    ensures b < |f.blocks| && Addr(PutData(f, b, d), i, k) == Addr(f, i, k)
  {
    assert OwnedBlock(f, owner, b) && OwnedSlot(f, owner, i, NDIRECT);
  }

  lemma PutDataOwned(f: Fs, owner: map<nat, Slot>, first: nat, b: nat, d: Block)
    requires Owned(f, owner, first) && b in owner && owner[b].k != NDIRECT
    ensures b < |f.blocks| && Owned(PutData(f, b, d), owner, first)
  {
    assert OwnedBlock(f, owner, b);
    var g := PutData(f, b, d);
    forall i, k | i in g.inodes && 0 <= k < SLOTS ensures OwnedSlot(g, owner, i, k) {
      PutDataAddr(f, owner, first, b, d, i, k);
      assert OwnedSlot(f, owner, i, k);
    }
    forall c | c in owner ensures c >= first && OwnedBlock(g, owner, c) {
      assert OwnedBlock(f, owner, c);
      PutDataAddr(f, owner, first, b, d, owner[c].inum, owner[c].k);
    }
  }

  /** Writing the bn-th block of file i changes those bytes of that file and nothing else. */
  lemma PutDataByte(f: Fs, owner: map<nat, Slot>, first: nat, i: nat, bn: nat, d: Block, y: nat, x: nat)
    requires Owned(f, owner, first) && i in f.inodes && bn < MAXFILE && BlockNo(f, i, bn) != 0 && y in f.inodes
    ensures BlockNo(f, i, bn) < |f.blocks|
    ensures ByteAt(PutData(f, BlockNo(f, i, bn), d), y, x) ==
      if y == i && x / BSIZE == bn then d[x % BSIZE] else ByteAt(f, y, x)
  {
    var b, k := BlockNo(f, i, bn), if bn < NDIRECT then bn else bn + 1;
    assert OwnedSlot(f, owner, i, k) && OwnedBlock(f, owner, b);
    if x / BSIZE < MAXFILE {
      var s := if x / BSIZE < NDIRECT then x / BSIZE else x / BSIZE + 1;
      PutDataAddr(f, owner, first, b, d, y, s);
      assert OwnedSlot(f, owner, y, s);
    }
  }
}
