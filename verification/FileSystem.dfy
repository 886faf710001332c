/**
  Block allocation, inode addresses and file reads and writes of kernel/fs.c, and the
  transactions of filewrite() in kernel/file.c.

  `log` records the calls of log_write; see module Image.
 */
module FileSystem {
  import B = Bitmap
  import opened Inodes
  import opened Files
  import opened Image
  import opened Params

  const UINT: nat := 0x1_0000_0000
  const MAXCHUNK: nat := (MAXOPBLOCKS - 1 - 1 - 2) / 2 * BSIZE    // of one transaction of filewrite()

  function Min(a: nat, b: nat): nat {
    if a < b then a else b
  }

  /** Blocks that bmap() may log for block bn of a file whose indirect block is q. */
  function Cost(bn: nat, q: nat, logged: set<nat>): nat {
    if bn < NDIRECT || (q != 0 && q in logged) then 2 else if q != 0 then 3 else 4
  }

  /** After t turns the loop of writei() is at a block boundary or has done all n bytes. */
  predicate Turns(off: nat, n: nat, tot: nat, t: nat) {
    && (if t == 0 then tot == 0 else tot == n || tot + off % BSIZE == t * BSIZE)
    && (n <= MAXCHUNK ==> t <= if off % BSIZE != 0 then 4 else 3)
  }

  lemma NextTurn(off: nat, n: nat, tot: nat, t: nat)
    requires tot < n && Turns(off, n, tot, t)
    ensures Turns(off, n, tot + Min(n - tot, BSIZE - (off + tot) % BSIZE), t + 1)
    ensures (off + tot) % BSIZE == if t == 0 then off % BSIZE else 0
    ensures var m := Min(n - tot, BSIZE - (off + tot) % BSIZE);
      tot + m < n ==> (off + tot + m) / BSIZE == (off + tot) / BSIZE + 1
  {
    assert t > 0 ==> (off + tot) % BSIZE == 0 by {
      if t > 0 { assert off + tot == (off / BSIZE + t) * BSIZE; }
    }
  }

  /** None of the blocks that file i of f has from block number `from` on is logged. */
  ghost predicate Untouched(f: Fs, i: nat, logged: set<nat>, from: nat)
    requires i in f.inodes
  {
    forall bn :: from <= bn < MAXFILE && BlockNo(f, i, bn) != 0 ==> BlockNo(f, i, bn) !in logged
  }

  /** Block bn of the file is logged exactly if the file did not have it in f. */
  ghost predicate NewBlock(f: Fs, g: Fs, i: nat, bn: nat, logged: set<nat>)
    requires i in f.inodes && i in g.inodes && bn < MAXFILE
  {
    BlockNo(g, i, bn) != 0 ==>
      if BlockNo(f, i, bn) == 0 then BlockNo(g, i, bn) in logged
      else BlockNo(g, i, bn) == BlockNo(f, i, bn) && BlockNo(g, i, bn) !in logged
  }

  lemma SameBlock(o: nat, d: nat)
    requires o % BSIZE + d < BSIZE
    ensures (o + d) / BSIZE == o / BSIZE && (o + d) % BSIZE == o % BSIZE + d
  {
  }

  /** From block number `from` on, file i has the same blocks. */
  ghost predicate SameFrom(f: Fs, g: Fs, i: nat, from: nat) {
    i in f.inodes && i in g.inodes && forall x :: from <= x < MAXFILE ==> BlockNo(g, i, x) == BlockNo(f, i, x)
  }

  /** Except for block number bn, file i has the same blocks. */
  ghost predicate SameBut(f: Fs, g: Fs, i: nat, bn: nat) {
    i in f.inodes && i in g.inodes && forall x :: 0 <= x < MAXFILE && x != bn ==> BlockNo(g, i, x) == BlockNo(f, i, x)
  }

  /** The next block has its own number: logging it and what bmap() logs for it leaves those behind it alone. */
  lemma UntouchedMore(f: Fs, g: Fs, owner: map<nat, Slot>, h: Fs, owner2: map<nat, Slot>, first: nat, i: nat, bn: nat,
                      j0: Journal, j: Journal, logged: set<nat>)
    requires Owned(g, owner, first) && Owned(h, owner2, first) && i in f.inodes && bn < MAXFILE
    requires g.inodes.Keys == f.inodes.Keys && h.inodes.Keys == f.inodes.Keys && Keeps(f, g) && Keeps(g, h)
    requires OnlyNew(j0, j, g.used, first, Addr(g, i, NDIRECT)) && Untouched(f, i, j0.logged, bn)
    requires logged <= j.logged + {BlockNo(h, i, bn)}
    ensures Untouched(f, i, logged, bn + 1)
  {
    forall x | bn + 1 <= x < MAXFILE && BlockNo(f, i, x) != 0 ensures BlockNo(f, i, x) !in logged {
      var k := if x < NDIRECT then x else x + 1;
      assert Addr(f, i, k) != 0;
      SlotBlock(g, owner, first, i, k);
      SlotBlock(h, owner2, first, i, k);
      if Addr(g, i, NDIRECT) != 0 { SlotBlock(g, owner, first, i, NDIRECT); }
      if BlockNo(h, i, bn) != 0 { SlotBlock(h, owner2, first, i, if bn < NDIRECT then bn else bn + 1); }
    }
  }

  /** In s file i has the first `tot` bytes of src, and perhaps more of them beyond its end. */
  ghost predicate SavedAs(f: Fs, s: Fs, i: nat, off: nat, src: seq<Byte>, tot: nat, w: nat) {
    && tot <= w <= |src| && i in f.inodes
    && (Written(f, s, i, off, src, tot) || (Written(f, s, i, off, src, w) && f.inodes[i].size <= off + tot))
  }

  lemma SavedStored(f: Fs, s: Fs, i: nat, off: nat, src: seq<Byte>, tot: nat, w: nat)
    requires SavedAs(f, s, i, off, src, tot, w) && off <= f.inodes[i].size
    ensures i in s.inodes && Stored(f, Resized(f, s, i, off + tot), i, off, src, tot, tot)
  {
    if Written(f, s, i, off, src, tot) {
      StoredIs(f, s, i, off, src, tot, tot);
    } else {
      StoredIs(f, s, i, off, src, tot, w);
      StoredLess(f, Resized(f, s, i, off + tot), i, off, src, tot, w);
    }
  }

  /** g with the size that file i has after a write up to byte n; f is the state before it. */
  function Resized(f: Fs, g: Fs, i: nat, n: nat): Fs
    requires i in f.inodes && i in g.inodes
  {
    SetSize(g, i, if n > f.inodes[i].size then n else f.inodes[i].size)
  }

  lemma Sizing(f: Fs, g: Fs, owner: map<nat, Slot>, first: nat, i: nat, off: nat, src: seq<Byte>, tot: nat, w: nat)
    requires i in f.inodes && OnlyInode(f.inodes, g.inodes, i) && off <= f.inodes[i].size && tot <= w <= |src|
    requires Written(f, g, i, off, src, w) && Filled(g, i, off + tot) && off + tot <= MAXFILE * BSIZE
    requires Owned(g, owner, first) && forall y :: y in f.inodes ==> NoHoles(f, y)
    ensures var h := Resized(f, g, i, off + tot);
      && Owned(h, owner, first) && OnlyInode(f.inodes, h.inodes, i) && Stored(f, h, i, off, src, tot, w)
      && (forall y :: y in h.inodes ==> NoHoles(h, y))
      && (forall bn :: 0 <= bn < MAXFILE ==> BlockNo(h, i, bn) == BlockNo(g, i, bn))
  {
    StoredIs(f, g, i, off, src, tot, w);
    SizeFull(f, g, i, off + tot);
    SetSizeOwned(g, owner, first, i, Resized(f, g, i, off + tot).inodes[i].size);
  }

  /**
    What a write of `tot` bytes leaves loose, if the journal j before it had nothing loose and a
    transaction began with it: the block in which a copy stopped short, unless it is new.
   */
  ghost predicate LooseAs(f: Fs, j: Journal, log: Journal, i: nat, o: nat, short: bool)
    requires i in f.inodes
  {
    && (j.loose == {} && !short ==> log.loose == {})
    && (j.loose == {} && j.logged == {} && short ==>
          o / BSIZE < MAXFILE && var b := BlockNo(f, i, o / BSIZE); log.loose == if b == 0 then {} else {b})
  }

  /**
    The call of writei() tears a block: the source ends within a block that the file has.  All
    of this can be told before the call.
   */
  predicate Tears(f: Fs, i: nat, off: nat, n: nat, readable: nat) {
    && i in f.inodes && off <= f.inodes[i].size && off + n <= MAXFILE * BSIZE
    && 0 < readable < n && (off + readable) % BSIZE != 0 && BlockNo(f, i, (off + readable) / BSIZE) != 0
  }

  function Torn(f: Fs, i: nat, off: nat, n: nat, readable: nat): set<nat> {
    if Tears(f, i, off, n, readable) then {BlockNo(f, i, (off + readable) / BSIZE)} else {}
  }

  /** The file has every block on the way to the byte at which the source ends. */
  ghost predicate Reaches(f: Fs, i: nat, off: nat, readable: nat)
    requires i in f.inodes
  {
    forall bn :: off / BSIZE <= bn <= (off + readable) / BSIZE && bn < MAXFILE ==> BlockNo(f, i, bn) != 0
  }

  /** A block is left loose only by a call that tears, and by every such call that gets to the block. */
  ghost predicate TornAs(f: Fs, i: nat, off: nat, n: nat, readable: nat, loose: set<nat>) {
    && i in f.inodes && loose <= Torn(f, i, off, n, readable)
    && (Reaches(f, i, off, readable) ==> loose == Torn(f, i, off, n, readable))
  }

  /** In a file without gaps every call that tears gets to the block. */
  lemma SolidReaches(f: Fs, i: nat, off: nat, n: nat, readable: nat)
    requires Tears(f, i, off, n, readable) && Solid(f, i)
    ensures Reaches(f, i, off, readable)
  {
  }

  /** A write within the file tears exactly if its source ends within a block, and gets to it. */
  lemma InsideReaches(f: Fs, i: nat, off: nat, n: nat, readable: nat)
    requires i in f.inodes && NoHoles(f, i) && off + n <= f.inodes[i].size && readable < n
    ensures Reaches(f, i, off, readable)
    ensures Tears(f, i, off, n, readable) <==> readable > 0 && (off + readable) % BSIZE != 0
  {
    forall bn | off / BSIZE <= bn <= (off + readable) / BSIZE && bn < MAXFILE ensures BlockNo(f, i, bn) != 0 {
      assert bn * BSIZE <= off + readable;
    }
  }

  /** When nothing is left loose, for a file without gaps. */
  lemma TornIff(f: Fs, i: nat, off: nat, n: nat, readable: nat, loose: set<nat>)
    requires TornAs(f, i, off, n, readable, loose) && Solid(f, i)
    ensures loose == Torn(f, i, off, n, readable) && (loose != {} <==> Tears(f, i, off, n, readable))
  {
    if Tears(f, i, off, n, readable) { SolidReaches(f, i, off, n, readable); }
  }

  lemma NoTear(f: Fs, i: nat, off: nat, n: nat, readable: nat)
    requires i in f.inodes && (off > f.inodes[i].size || off + n > MAXFILE * BSIZE)
    ensures TornAs(f, i, off, n, readable, {}) && KeepsSolid(f, f)
  {
  }

  lemma TornEnd(f: Fs, i: nat, off: nat, n: nat, readable: nat, end: nat, loose: set<nat>)
    requires TornAs(f, i, off, n, readable, loose) && loose != {} && end == off + readable
    ensures 0 < readable < n && end % BSIZE != 0
  {
  }

  /** The count that writei() returns unless the disk is full: whole blocks, up to what can be read. */
  function Countable(off: nat, n: nat, readable: nat): nat {
    if readable >= n then n
    else if off % BSIZE + readable < BSIZE then 0
    else readable - (off + readable) % BSIZE
  }

  /**
    How the loop of writei() ends, with files v and what the log has of them s: `tot` bytes
    are written and logged, and w are in the cache.
   */
  ghost predicate EndsAs(f: Fs, j: Journal, v: Fs, s: Fs, log: Journal, i: nat, off: nat, src: seq<Byte>, n: nat,
                         tot: nat, w: nat) {
    && i in f.inodes && OnlyInode(f.inodes, v.inodes, i) && s.inodes == v.inodes
    && tot <= w <= n <= |src| && off + n <= MAXFILE * BSIZE
    && Written(f, v, i, off, src, w) && Filled(v, i, off + tot)
    && log.base == j.base && j.logged <= log.logged && KeepsSolid(f, v)
    && (n <= MAXCHUNK && j.room && j.logged == {} ==> log.room && |log.logged| < MAXOPBLOCKS)
    && LooseAs(f, j, log, i, off + tot, w > tot) && (tot == 0 || tot == n || (off + tot) % BSIZE == 0)
    && (j.loose == {} && j.logged == {} ==> SavedAs(f, s, i, off, src, tot, w))
  }

  /**
    The end of writei(): `tot` bytes count, and w are in the cache.  What the log has is
    exactly the first `tot`, if the call began a transaction and no block was loose.  A
    block is left loose when a copy fails within it, unless the log lists it already.
   */
  ghost predicate LeavesAs(f: Fs, j: Journal, v: Fs, s: Fs, log: Journal, i: nat, off: nat, src: seq<Byte>, n: nat,
                           tot: nat, w: nat, cap: nat) {
    && i in f.inodes && OnlyInode(f.inodes, v.inodes, i)
    && tot <= w <= n <= |src| && off + n <= MAXFILE * BSIZE
    && Stored(f, v, i, off, src, tot, w) && log.base == j.base && KeepsSolid(f, v) && Still(f, v, i)
    && (n <= MAXCHUNK && j.room && j.logged == {} ==> log.room && |log.logged| <= cap)
    && LooseAs(f, j, log, i, off + tot, w > tot) && (tot == 0 || tot == n || (off + tot) % BSIZE == 0)
    && (j.loose == {} && j.logged == {} ==> Stored(f, s, i, off, src, tot, tot))
  }

  lemma EndsLeaves(f: Fs, j: Journal, v: Fs, s: Fs, log: Journal, owner: map<nat, Slot>, first: nat, i: nat, off: nat,
                   src: seq<Byte>, n: nat, tot: nat, w: nat)
    requires EndsAs(f, j, v, s, log, i, off, src, n, tot, w) && off <= f.inodes[i].size
    requires Owned(v, owner, first) && forall y :: y in f.inodes ==> NoHoles(f, y)
    ensures i in s.inodes
    ensures var u, z := Resized(f, v, i, off + tot), Resized(f, s, i, off + tot);
      && LeavesAs(f, j, u, z, log, i, off, src, n, tot, w, MAXOPBLOCKS - 1)
      && Owned(u, owner, first) && forall y :: y in u.inodes ==> NoHoles(u, y)
  {
    Sizing(f, v, owner, first, i, off, src, tot, w);
    AddrsSolid(v, Resized(f, v, i, off + tot));
    KeepsStill(f, v, Resized(f, v, i, off + tot), i);
    if j.loose == {} && j.logged == {} { SavedStored(f, s, i, off, src, tot, w); }
  }

  /** The call of log_write for the inode block leaves it so. */
  lemma LeavesNoted(f: Fs, j: Journal, v: Fs, s: Fs, log: Journal, k: Journal, owner: map<nat, Slot>, l: Layout,
                    i: nat, off: nat, src: seq<Byte>, n: nat, tot: nat, w: nat)
    requires LeavesAs(f, j, v, s, log, i, off, src, n, tot, w, MAXOPBLOCKS - 1) && Owned(v, owner, l.first)
    requires l.InodeBlock(i) < l.first && Notes(log, k, l.InodeBlock(i)) && k.loose == log.loose
    ensures LeavesAs(f, j, v, s, k, i, off, src, n, tot, w, MAXOPBLOCKS)
  {
  }

  // --- The transactions of filewrite() ---

  /**
    A transaction: the calls of log_write, the blocks that the log has then, and the files
    that these blocks make up, in which the first `done` bytes are written.
   */
  datatype Tx = Tx(writes: seq<Write>, image: map<nat, Raw>, fs: Fs, bitmap: B.Map, done: nat)

  /** The blocks of the transaction are those of its files. */
  ghost predicate Shows(l: Layout, tx: Tx) {
    && B.Says(tx.bitmap, tx.fs.used) && (forall b :: b in tx.image <==> l.inodestart <= b < |tx.fs.blocks|)
    && forall b {:trigger Content(l, Disk(tx.fs.inodes, tx.bitmap, tx.fs.blocks), b)} ::
         b in tx.image ==> tx.image[b] == Content(l, Disk(tx.fs.inodes, tx.bitmap, tx.fs.blocks), b)
  }

  function Before(base: map<nat, Raw>, txs: seq<Tx>, k: nat): map<nat, Raw>
    requires k <= |txs|
  {
    if k == 0 then base else txs[k - 1].image
  }

  /** Transaction k leads from the blocks before it to files in which more of src is spliced. */
  ghost predicate StepOk(l: Layout, f: Fs, base: map<nat, Raw>, i: nat, off: nat, src: seq<Byte>, txs: seq<Tx>, k: nat)
    requires k < |txs|
  {
    var tx := txs[k];
    && tx.image == Replay(Before(base, txs, k), tx.writes) && Small(tx.writes) && |Touched(tx.writes)| <= MAXOPBLOCKS
    && (forall x :: 0 <= x < |tx.writes| ==> tx.writes[x].b in Before(base, txs, k))
    && Shows(l, tx) && Wrote(f, tx.fs, i, off, src, tx.done, tx.done)
    && (k > 0 ==> txs[k - 1].done <= tx.done)
  }

  ghost predicate Steps(l: Layout, f: Fs, base: map<nat, Raw>, i: nat, off: nat, src: seq<Byte>, txs: seq<Tx>) {
    forall k {:trigger StepOk(l, f, base, i, off, src, txs, k)} ::
      0 <= k < |txs| ==> StepOk(l, f, base, i, off, src, txs, k)
  }

  lemma StepsMore(l: Layout, f: Fs, base: map<nat, Raw>, i: nat, off: nat, src: seq<Byte>, txs: seq<Tx>, tx: Tx)
    requires Steps(l, f, base, i, off, src, txs) && StepOk(l, f, base, i, off, src, txs + [tx], |txs|)
    ensures Steps(l, f, base, i, off, src, txs + [tx])
  {
    forall k | 0 <= k < |txs| ensures StepOk(l, f, base, i, off, src, txs + [tx], k) {
      assert StepOk(l, f, base, i, off, src, txs, k);
    }
  }

  class FileSystem {
    const l: Layout
    const size: nat
    var bitmap: B.Map
    var blocks: seq<Block>          // as in the buffer cache
    var inodes: map<nat, Inode>     // as in memory
    var dinodes: map<nat, Inode>    // as in the inode blocks
    ghost var used: seq<bool>       // the bit map as truth values
    ghost var owner: map<nat, Slot>
    ghost var log: Journal

    ghost function View(): Fs
      reads `used, `blocks, `inodes
    {
      Fs(used, blocks, inodes)
    }

    /** The file system as the log has it, and as it is once loose blocks have been recycled. */
    ghost function Saved(): Fs
      reads `used, `inodes, `log
    {
      Fs(used, log.saved, inodes)
    }

    ghost function OnDisk(): Disk
      reads `dinodes, `bitmap, `blocks
    {
      Disk(dinodes, bitmap, blocks)
    }

    /** The bit map says which blocks are used, and the log knows all changes but those of loose blocks. */
    ghost predicate Mapped()
      reads `dinodes, `bitmap, `used, `blocks, `log
    {
      0 < size == |used| == |blocks| && B.Says(bitmap, used) && Synced(l, OnDisk(), log) && Honest(log)
    }

    ghost predicate Valid()
      reads this
    {
      Mapped() && Owned(View(), owner, l.first) && Housed(l, inodes)
    }

    /** A disk as it is mounted: any image in which blocks have one owner. */
    constructor (l: Layout, bitmap: B.Map, blocks: seq<Block>, inodes: map<nat, Inode>,
                 ghost used: seq<bool>, ghost owner: map<nat, Slot>)
      requires B.Says(bitmap, used) && Owned(Fs(used, blocks, inodes), owner, l.first)
      requires l.Fits(bitmap, |blocks|) && Housed(l, inodes)
      ensures Valid() && View() == Fs(used, blocks, inodes) && dinodes == inodes && this.l == l
      ensures log == Mounted(l, Disk(inodes, bitmap, blocks))
    {
      this.l, this.size := l, |blocks|;
      this.bitmap, this.blocks, this.inodes, this.dinodes := bitmap, blocks, inodes, inodes;
      this.used, this.owner := used, owner;
      this.log := Mounted(l, Disk(inodes, bitmap, blocks));
      MountedSynced(l, Disk(inodes, bitmap, blocks));
    }

    /** Mark block b in the bit map, whose block is logged. */
    method SetBit(b: nat)
      requires Mapped() && b < size
      modifies `bitmap, `used, `log
      ensures Mapped() && used == old(used)[b := true]
      ensures Notes(old(log), log, l.BitmapBlock(b)) && log.loose == old(log.loose) && log.saved == old(log.saved)
    {
      B.SetSays(bitmap, used, b);
      PutBits(B.Set(bitmap, b), b / BPB);
      used := used[b := true];
    }

    method ClearBit(b: nat)
      requires Mapped() && b < size
      modifies `bitmap, `used, `log
      ensures Mapped() && used == old(used)[b := false]
      ensures Notes(old(log), log, l.BitmapBlock(b)) && log.loose == old(log.loose) && log.saved == old(log.saved)
    {
      B.SetSays(bitmap, used, b);
      PutBits(B.Clear(bitmap, b), b / BPB);
      used := used[b := false];
    }

    /** Bitmap block q becomes that of m, and is logged. */
    method PutBits(m: B.Map, q: nat)
      requires Synced(l, OnDisk(), log) && Honest(log) && q < |bitmap| == |m| && m == bitmap[q := m[q]]
      modifies `bitmap, `log
      ensures Synced(l, OnDisk(), log) && Honest(log) && bitmap == m
      ensures Notes(old(log), log, l.bmapstart + q) && log.loose == old(log.loose) && log.saved == old(log.saved)
    {
      SyncBits(l, OnDisk(), log, q, m[q]);
      NoteIs(log, l.bmapstart + q, Bits(m[q]));
      log := Note(log, l.bmapstart + q, Bits(m[q]));
      bitmap := m;
    }

    /** Data block b gets the contents x and is logged. */
    method PutBlock(b: nat, x: Block)
      requires Mapped() && l.first <= b < size
      modifies `blocks, `log
      ensures Mapped() && blocks == old(blocks)[b := x]
      ensures Notes(old(log), log, b) && log.loose == old(log.loose) - {b}
    {
      SyncData(l, OnDisk(), log, b, x);
      NoteIs(log, b, Bytes(x));
      log := Note(log, b, Bytes(x));
      blocks := blocks[b := x];
    }

    /**
      Data block b gets the contents x and is released without log_write.  If the log lists
      it already, commit takes its contents all the same, as after another call.
     */
    method PutLoose(b: nat, x: Block)
      requires Mapped() && l.first <= b < size
      modifies `blocks, `log
      ensures Mapped() && blocks == old(blocks)[b := x]
      ensures if b in old(log.logged) then Notes(old(log), log, b) && log.loose == old(log.loose) - {b}
              else log == old(log).(loose := old(log.loose) + {b})
    {
      if b in log.logged {
        SyncData(l, OnDisk(), log, b, x);
        NoteIs(log, b, Bytes(x));
        log := Note(log, b, Bytes(x));
      } else {
        SyncLoose(l, OnDisk(), log, b, x);
        log := log.(loose := log.loose + {b});
      }
      blocks := blocks[b := x];
    }

    /** The loops of balloc(): the lowest free block, or `size`. */
    method FindFree() returns (r: nat)
      requires Mapped()
      ensures r <= size && (r < size ==> !used[r])
      ensures forall b :: 0 <= b < r ==> used[b]
    {
      var b := 0;
      while b < size
        invariant b % BPB == 0 && forall c :: 0 <= c < b && c < size ==> used[c]
      {
        var bi := 0;
        while bi < BPB && b + bi < size
          invariant bi <= BPB && forall c :: 0 <= c < b + bi && c < size ==> used[c]
        {
          assert (b + bi) / BPB == b / BPB && (b + bi) % BPB == bi;
          assert used[b + bi] == B.Bit(bitmap, b + bi);
          if bitmap[b / BPB][bi / 8] & B.Mask(bi) == 0 {
            return b + bi;
          }
          bi := bi + 1;
        }
        b := b + BPB;
      }
      return size;
    }

    method Balloc() returns (addr: nat)
      requires Mapped() && 0 < l.first && forall b :: 0 <= b < l.first ==> used[b]
      modifies `bitmap, `used, `blocks, `log
      ensures Mapped()
      ensures addr == 0 ==> unchanged(this) && forall b :: 0 <= b < size ==> used[b]
      ensures addr != 0 ==> l.first <= addr < size && !old(used)[addr] && forall b :: 0 <= b < addr ==> old(used)[b]
      ensures addr != 0 ==> used == old(used)[addr := true] && blocks == old(blocks)[addr := Zeros()]
      ensures addr != 0 ==> log.logged == old(log.logged) + {l.BitmapBlock(addr)} + {addr}
      ensures GoesOn(old(log), log, 2) && (addr != 0 ==> OnlyNew(old(log), log, old(used), l.first, addr))
      ensures old(log.room) && |old(log.logged)| + 2 <= MAXOPBLOCKS ==> log.room
    {
      var b := FindFree();
      if b == size {
        return 0;
      }
      SetBit(b);
      PutBlock(b, Zeros());
      return b;
    }

    /** An address of the inode itself, with a new block if there is none; 0 if the disk is full. */
    method MapAddr(ip: nat, k: nat) returns (addr: nat)
      requires Valid() && ip in inodes && k <= NDIRECT
      modifies `bitmap, `used, `blocks, `inodes, `owner, `log
      ensures Valid() && OnlyInode(old(inodes), inodes, ip) && Same(old(View()), View()) && addr == Addr(View(), ip, k)
      ensures forall s :: 0 <= s < SLOTS && s != k ==> Addr(View(), ip, s) == old(Addr(View(), ip, s))
      ensures old(Addr(View(), ip, k)) != 0 || addr == 0 ==> unchanged(this)
      ensures addr == 0 ==> forall b :: 0 <= b < size ==> used[b]
      ensures old(Addr(View(), ip, k)) == 0 && addr != 0 ==>
        addr in log.logged && addr < |old(used)| && !old(used)[addr]
      ensures GoesOn(old(log), log, 2) && OnlyNew(old(log), log, old(used), l.first, 0)
      ensures OnlyGained(old(owner), owner, ip)
      ensures forall b :: 0 <= b < size && old(used)[b] ==> used[b]
      ensures old(log.room) && |old(log.logged)| + 2 <= MAXOPBLOCKS ==> log.room
    {
      addr := inodes[ip].addrs[k];
      if addr == 0 {
        ghost var f := View();
        addr := Balloc();
        if addr == 0 {
          return 0;
        }
        PutAddr(ip, k, addr, f);
      }
    }

    /** A new block goes into an empty address of the inode; f is the state before it was taken. */
    method PutAddr(ip: nat, k: nat, addr: nat, ghost f: Fs)
      requires Mapped() && Owned(f, owner, l.first) && Housed(l, inodes) && 0 < addr < |f.used| && !f.used[addr]
      requires View() == Claim(f, addr) && ip in f.inodes && k <= NDIRECT && Addr(f, ip, k) == 0
      modifies `inodes, `owner
      ensures Valid() && OnlyInode(f.inodes, inodes, ip) && Same(f, View()) && addr == Addr(View(), ip, k)
      ensures forall s :: 0 <= s < SLOTS && s != k ==> Addr(View(), ip, s) == Addr(f, ip, s)
      ensures OnlyGained(old(owner), owner, ip)
    {
      SetAddrOwned(f, owner, l.first, addr, ip, k);
      SetAddrSame(f, owner, l.first, addr, ip, k);
      forall s | 0 <= s < SLOTS
        ensures Addr(SetAddr(Claim(f, addr), ip, k, addr), ip, s) == if s == k then addr else Addr(f, ip, s)
      {
        SetAddrIs(f, owner, l.first, addr, ip, k, ip, s);
      }
      inodes := inodes[ip := inodes[ip].(addrs := inodes[ip].addrs[k := addr])];
      owner := owner[addr := Slot(ip, k)];
      assert View() == SetAddr(Claim(f, addr), ip, k, addr);
    }

    /** A new block goes into an empty entry of the indirect block p; f is the state before it was taken. */
    method PutEntry(ip: nat, p: nat, e: nat, addr: nat, ghost f: Fs)
      requires Mapped() && Owned(f, owner, l.first) && Housed(l, inodes) && 0 < addr < |f.used| && !f.used[addr]
      requires View() == Claim(f, addr) && ip in f.inodes && e < NINDIRECT
      requires p == Addr(f, ip, NDIRECT) != 0 && Addr(f, ip, NDIRECT + 1 + e) == 0
      modifies `blocks, `owner, `log
      ensures Valid() && Same(f, View()) && addr == Addr(View(), ip, NDIRECT + 1 + e)
      ensures forall s :: 0 <= s < SLOTS && s != NDIRECT + 1 + e ==> Addr(View(), ip, s) == Addr(f, ip, s)
      ensures OnlyGained(old(owner), owner, ip)
      ensures Notes(old(log), log, p) && log.loose <= old(log.loose)
    {
      SlotBlock(f, owner, l.first, ip, NDIRECT);
      SetEntryOwned(f, owner, l.first, addr, ip, e);
      SetEntrySame(f, owner, l.first, addr, ip, e);
      forall s | 0 <= s < SLOTS
        ensures Addr(SetEntry(Claim(f, addr), p, e, addr), ip, s) ==
          if s == NDIRECT + 1 + e then addr else Addr(f, ip, s)
      {
        SetEntryIs(f, owner, l.first, addr, ip, e, ip, s);
      }
      PutBlock(p, PutWord(blocks[p], e, addr));
      owner := owner[addr := Slot(ip, NDIRECT + 1 + e)];
      assert View() == SetEntry(Claim(f, addr), p, e, addr);
    }

    /** An entry of the indirect block p, with a new block if there is none. */
    method MapEntry(ip: nat, p: nat, e: nat) returns (addr: nat)
      requires Valid() && ip in inodes && p == Addr(View(), ip, NDIRECT) != 0 && e < NINDIRECT
      modifies `bitmap, `used, `blocks, `owner, `log
      ensures Valid() && Same(old(View()), View()) && addr == Addr(View(), ip, NDIRECT + 1 + e)
      ensures old(Addr(View(), ip, NDIRECT + 1 + e)) != 0 ==> unchanged(this)
      ensures forall s :: 0 <= s < SLOTS && s != NDIRECT + 1 + e ==> Addr(View(), ip, s) == old(Addr(View(), ip, s))
      ensures addr == 0 ==> forall b :: 0 <= b < size ==> used[b]
      ensures old(Addr(View(), ip, NDIRECT + 1 + e)) == 0 && addr != 0 ==>
        addr in log.logged && p in log.logged
      ensures GoesOn(old(log), log, 3) && OnlyNew(old(log), log, old(used), l.first, p)
      ensures p in old(log.logged) ==> |log.logged| <= |old(log.logged)| + 2
      ensures OnlyGained(old(owner), owner, ip)
      ensures addr == 0 ==> log == old(log)
      ensures old(log.room) && |old(log.logged)| + 2 < MAXOPBLOCKS ==> log.room
    {
      SlotBlock(View(), owner, l.first, ip, NDIRECT);
      addr := Word(blocks[p], e);
      if addr == 0 {
        ghost var f := View();
        addr := Balloc();
        if addr == 0 {
          return 0;
        }
        PutEntry(ip, p, e, addr, f);
      }
    }

    method Bmap(ip: nat, bn: nat) returns (addr: nat)
      requires Valid() && ip in inodes && bn < MAXFILE
      modifies `bitmap, `used, `blocks, `inodes, `owner, `log
      ensures Valid() && OnlyInode(old(inodes), inodes, ip) && Same(old(View()), View()) &&
        addr == BlockNo(View(), ip, bn)
      ensures old(BlockNo(View(), ip, bn)) != 0 ==> unchanged(this)
      ensures SameBut(old(View()), View(), ip, bn)
      ensures OnlyGained(old(owner), owner, ip)
      ensures addr == 0 ==> forall b :: 0 <= b < size ==> used[b]
      ensures old(BlockNo(View(), ip, bn)) == 0 && addr != 0 ==> addr in log.logged
      ensures GoesOn(old(log), log, Cost(bn, old(Addr(View(), ip, NDIRECT)), old(log.logged)))
      ensures OnlyNew(old(log), log, old(used), l.first, old(Addr(View(), ip, NDIRECT)))
      ensures bn >= NDIRECT && old(BlockNo(View(), ip, bn)) == 0 && addr != 0 ==>
        Addr(View(), ip, NDIRECT) in log.logged - {0}
      ensures var c := Cost(bn, old(Addr(View(), ip, NDIRECT)), old(log.logged));
        old(log.room) && |old(log.logged)| + c < MAXOPBLOCKS ==> log.room
    {
      if bn < NDIRECT {
        addr := MapAddr(ip, bn);
      } else {
        addr := MapIndirect(ip, bn - NDIRECT);
      }
    }

    /** bmap() through the indirect block. */
    method MapIndirect(ip: nat, e: nat) returns (addr: nat)
      requires Valid() && ip in inodes && e < NINDIRECT
      modifies `bitmap, `used, `blocks, `inodes, `owner, `log
      ensures Valid() && OnlyInode(old(inodes), inodes, ip) && Same(old(View()), View())
      ensures addr == Addr(View(), ip, NDIRECT + 1 + e) && SameBut(old(View()), View(), ip, NDIRECT + e)
      ensures old(Addr(View(), ip, NDIRECT + 1 + e)) != 0 ==> unchanged(this)
      ensures OnlyGained(old(owner), owner, ip)
      ensures addr == 0 ==> forall b :: 0 <= b < size ==> used[b]
      ensures old(Addr(View(), ip, NDIRECT + 1 + e)) == 0 && addr != 0 ==>
        addr in log.logged && Addr(View(), ip, NDIRECT) in log.logged - {0}
      ensures GoesOn(old(log), log, Cost(NDIRECT + e, old(Addr(View(), ip, NDIRECT)), old(log.logged)))
      ensures OnlyNew(old(log), log, old(used), l.first, old(Addr(View(), ip, NDIRECT)))
      ensures var c := Cost(NDIRECT + e, old(Addr(View(), ip, NDIRECT)), old(log.logged));
        old(log.room) && |old(log.logged)| + c < MAXOPBLOCKS ==> log.room
    {
      addr := MapAddr(ip, NDIRECT);
      if addr == 0 {
        return;
      }
      ghost var g := View();
      addr := MapEntry(ip, addr, e);
      SameTwice(old(View()), g, View());
    }

    /** The source panics on a free block; callers show that it is not. */
    method Bfree(b: nat)
      requires Mapped() && b < size && used[b]
      modifies `bitmap, `used, `log
      ensures Mapped() && used == old(used)[b := false]
      ensures Notes(old(log), log, l.BitmapBlock(b)) && log.loose == old(log.loose) && log.saved == old(log.saved)
    {
      ClearBit(b);
    }

    method Iupdate(ip: nat)
      requires Mapped() && ip in inodes && Housed(l, inodes)
      modifies `dinodes, `log
      ensures Mapped() && dinodes == old(dinodes)[ip := inodes[ip]]
      ensures Notes(old(log), log, l.InodeBlock(ip)) && log.loose == old(log.loose) && log.saved == old(log.saved)
    {
      SyncNodes(l, OnDisk(), log, ip, inodes[ip]);
      dinodes := dinodes[ip := inodes[ip]];
      NoteIs(log, l.InodeBlock(ip), Nodes(NodesIn(dinodes, ip / IPB)));
      log := Note(log, l.InodeBlock(ip), Nodes(NodesIn(dinodes, ip / IPB)));
    }

    /** Free the block of address k, and clear the address. */
    method FreeAddr(ip: nat, k: nat, ghost j: Journal)
      requires Mapped() && Housed(l, inodes) && ip in inodes && k <= NDIRECT && inodes[ip].addrs[k] != 0
      requires if k < NDIRECT then Owned(View(), owner, l.first) else OwnedBut(View(), owner, l.first, ip, NINDIRECT)
      requires OnlyBits(l, size, j, log)
      modifies `bitmap, `used, `inodes, `owner, `log
      ensures Valid() && ip in inodes && OnlyInode(old(inodes), inodes, ip) && OnlyBits(l, size, j, log)
      ensures inodes[ip].addrs == old(inodes[ip].addrs)[k := 0]
      ensures var b := old(inodes[ip].addrs[k]);
        b in old(owner) && old(owner)[b].inum == ip && owner == old(owner) - {b}
    {
      if k < NDIRECT {
        FreeAddrOwned(View(), owner, l.first, ip, k);
      } else {
        FreeIndirectOwned(View(), owner, l.first, ip);
      }
      var b := inodes[ip].addrs[k];
      Release(b, j);
      inodes := inodes[ip := inodes[ip].(addrs := inodes[ip].addrs[k := 0])];
      owner := owner - {b};
    }

    /** bfree(), when only bitmap blocks have been logged since j. */
    method Release(b: nat, ghost j: Journal)
      requires Mapped() && b < size && used[b] && OnlyBits(l, size, j, log)
      modifies `bitmap, `used, `log
      ensures Mapped() && used == old(used)[b := false] && OnlyBits(l, size, j, log)
    {
      Bfree(b);
      MoreBits(l, size, j, old(log), log, b);
    }

    /** The first loop of itrunc(). */
    method FreeDirect(ip: nat)
      requires Valid() && ip in inodes
      modifies `bitmap, `used, `inodes, `owner, `log
      ensures Valid() && OnlyLost(old(owner), owner, ip) && OnlyBits(l, size, old(log), log)
      ensures ip in inodes && OnlyInode(old(inodes), inodes, ip)
      ensures forall k :: 0 <= k < NDIRECT ==> inodes[ip].addrs[k] == 0
    {
      var i := 0;
      while i < NDIRECT
        invariant i <= NDIRECT && Valid() && OnlyLost(old(owner), owner, ip) && OnlyBits(l, size, old(log), log)
        invariant ip in inodes && OnlyInode(old(inodes), inodes, ip)
        invariant forall k :: 0 <= k < i ==> inodes[ip].addrs[k] == 0
      {
        if inodes[ip].addrs[i] != 0 {
          ghost var o, b := owner, inodes[ip].addrs[i];
          FreeAddr(ip, i, old(log));
          LostOne(old(owner), o, ip, b);
        }
        i := i + 1;
      }
    }

    /** The loop of itrunc() over the entries of the indirect block. */
    method FreeEntries(ip: nat, ghost j: Journal)
      requires Valid() && ip in inodes && inodes[ip].addrs[NDIRECT] != 0 && OnlyBits(l, size, j, log)
      modifies `bitmap, `used, `owner, `log
      ensures Mapped() && OwnedBut(View(), owner, l.first, ip, NINDIRECT) && OnlyLost(old(owner), owner, ip)
      ensures OnlyBits(l, size, j, log)
    {
      SlotBlock(View(), owner, l.first, ip, NDIRECT);
      var a := blocks[inodes[ip].addrs[NDIRECT]];
      var e := 0;
      while e < NINDIRECT
        invariant e <= NINDIRECT && Mapped() && OwnedBut(View(), owner, l.first, ip, e)
        invariant OnlyLost(old(owner), owner, ip) && OnlyBits(l, size, j, log)
      {
        ghost var o := owner;
        FreeEntry(ip, e, Word(a, e), j);
        LostBoth(old(owner), o, owner, ip);
        e := e + 1;
      }
    }

    /** Entry e of the indirect block goes, if there is one. */
    method FreeEntry(ip: nat, e: nat, b: nat, ghost j: Journal)
      requires Mapped() && ip in inodes && e < NINDIRECT && OwnedBut(View(), owner, l.first, ip, e)
      requires b == Addr(View(), ip, NDIRECT + 1 + e) && OnlyBits(l, size, j, log)
      modifies `bitmap, `used, `owner, `log
      ensures Mapped() && OwnedBut(View(), owner, l.first, ip, e + 1) && OnlyLost(old(owner), owner, ip)
      ensures OnlyBits(l, size, j, log)
    {
      ghost var f, o := View(), owner;
      FreeEntryOwned(f, o, l.first, ip, e);
      if b != 0 {
        LostOne(o, o, ip, b);
        Release(b, j);
        owner := owner - {b};
        assert View() == Inodes.Release(f, b);
      }
    }

    method FreeIndirect(ip: nat, ghost j: Journal)
      requires Valid() && ip in inodes && OnlyBits(l, size, j, log)
      modifies `bitmap, `used, `inodes, `owner, `log
      ensures Valid() && OnlyLost(old(owner), owner, ip) && OnlyBits(l, size, j, log)
      ensures ip in inodes && OnlyInode(old(inodes), inodes, ip)
      ensures inodes[ip].addrs == old(inodes[ip].addrs)[NDIRECT := 0]
    {
      if inodes[ip].addrs[NDIRECT] != 0 {
        FreeEntries(ip, j);
        ghost var o, b := owner, inodes[ip].addrs[NDIRECT];
        FreeAddr(ip, NDIRECT, j);
        LostOne(old(owner), o, ip, b);
      }
    }

    /** The blocks of the file are free; its size is as before. */
    method FreeAll(ip: nat)
      requires Valid() && ip in inodes
      modifies `bitmap, `used, `inodes, `owner, `log
      ensures Valid() && OnlyLost(old(owner), owner, ip) && OnlyBits(l, size, old(log), log)
      ensures ip in inodes && OnlyInode(old(inodes), inodes, ip) && inodes[ip].addrs == NoAddrs()
      ensures forall b :: 0 <= b < size ==>
        (used[b] <==> old(used)[b] && !(b in old(owner) && old(owner)[b].inum == ip))
    {
      ghost var f, o0 := View(), owner;
      FreeDirect(ip);
      ghost var o := owner;
      FreeIndirect(ip, old(log));
      LostBoth(o0, o, owner, ip);
      assert inodes[ip].addrs == NoAddrs();
      EmptyOwnsNone(View(), owner, l.first, ip);
      forall b | 0 <= b < size
        ensures used[b] <==> f.used[b] && !(b in o0 && o0[b].inum == ip)
      {
        TruncFrees(f, o0, View(), owner, l.first, ip, b);
      }
    }

    /**
      The file is empty, and exactly its blocks are free again.  Only bitmap blocks and the
      inode's block are logged.
     */
    method Itrunc(ip: nat)
      requires Valid() && ip in inodes
      modifies this
      ensures Valid() && blocks == old(blocks) && (old(Full()) ==> Full())
      ensures inodes == old(inodes)[ip := Inode(NoAddrs(), 0)] && dinodes == old(dinodes)[ip := inodes[ip]]
      ensures KeepsSolid(old(View()), View())
      ensures OnlyLost(old(owner), owner, ip)
      ensures forall b :: 0 <= b < size ==>
        (used[b] <==> old(used)[b] && !(b in old(owner) && old(owner)[b].inum == ip))
      ensures log.base == old(log.base) && log.loose == old(log.loose)
      ensures |log.logged| <= |old(log.logged)| + BitmapBlocks(size) + 1
      ensures old(log.room) && |old(log.logged)| + BitmapBlocks(size) < MAXOPBLOCKS ==> log.room
    {
      ghost var f := View();
      FreeAll(ip);
      BitsBound(l, size, old(log), log);
      DropSize(ip);
      TruncFull(f, View(), ip);
      TruncSolid(f, View(), ip);
    }

    /** The end of itrunc(): the size becomes 0. */
    method DropSize(ip: nat)
      requires Valid() && ip in inodes
      modifies `inodes, `dinodes, `log
      ensures Valid() && inodes == old(inodes)[ip := Inode(old(inodes[ip].addrs), 0)]
      ensures dinodes == old(dinodes)[ip := inodes[ip]]
      ensures Notes(old(log), log, l.InodeBlock(ip)) && log.loose == old(log.loose)
    {
      SetSizeOwned(View(), owner, l.first, ip, 0);
      inodes := inodes[ip := inodes[ip].(size := 0)];
      Iupdate(ip);
    }

    /** Every file has all the blocks below its size. */
    ghost predicate Full()
      reads `used, `blocks, `inodes
    {
      forall i :: i in inodes ==> NoHoles(View(), i)
    }

    /**
      `n` bytes of file ip from `off` on; `writable` is how many bytes the destination can
      take.  Nothing is allocated, because a file has no holes.
     */
    method Readi(ip: nat, off: nat, n: nat, writable: nat) returns (r: int, dst: seq<Byte>)
      requires Valid() && Full() && ip in inodes && off < UINT && n < UINT
      modifies `bitmap, `used, `blocks, `inodes, `owner, `log
      ensures unchanged(this)
      ensures var d := Data(View(), ip);
        var m := if off > |d| || off + n >= UINT then 0 else if off + n > |d| then |d| - off else n;
        if m <= writable then r == m && (m > 0 ==> dst == d[off..off + m]) else r == -1
    {
      var size := inodes[ip].size;
      if off > size || (off + n) % UINT < off {
        return 0, [];
      }
      r, dst := ReadLoop(ip, off, if off + n > size then size - off else n, writable);
      if r >= 0 {
        assert dst == Data(View(), ip)[off..off + r];
      }
    }

    /** The loop of readi() over n bytes that are all below the size. */
    method ReadLoop(ip: nat, off: nat, n: nat, writable: nat) returns (r: int, dst: seq<Byte>)
      requires Valid() && ip in inodes && NoHoles(View(), ip) && off + n <= inodes[ip].size
      modifies `bitmap, `used, `blocks, `inodes, `owner, `log
      ensures unchanged(this)
      ensures if n <= writable then r == n == |dst| && Got(View(), ip, off, dst) else r == -1
    {
      dst := [];
      var tot, o := 0, off;
      while tot < n
        invariant unchanged(this) && tot <= n && o == off + tot && tot <= writable && |dst| == tot
        invariant Got(View(), ip, off, dst)
      {
        assert o / BSIZE < MAXFILE && o / BSIZE * BSIZE < inodes[ip].size;
        var addr := Bmap(ip, o / BSIZE);
        if addr == 0 {
          break;
        }
        SlotBlock(View(), owner, l.first, ip, if o / BSIZE < NDIRECT then o / BSIZE else o / BSIZE + 1);
        var m := Min(n - tot, BSIZE - o % BSIZE);
        if tot + m > writable {
          return -1, dst;
        }
        GotMore(View(), ip, off, dst, m);
        dst := dst + blocks[addr][o % BSIZE..o % BSIZE + m];
        tot, o := tot + m, o + m;
      }
      r := tot;
    }

    /**
      A copy of `tot` whole blocks' bytes and w in all leaves w bytes in the cache.  The log has
      them too, unless the last block, b, was left loose; then it has `tot`.
     */
    ghost predicate SavedTo(f: Fs, ip: nat, off: nat, src: seq<Byte>, tot: nat, w: nat, b: nat)
      reads `used, `inodes, `log
    {
      && tot <= w <= |src| && log.loose == (if w == tot || b in log.logged then {} else {b})
      && Written(f, Saved(), ip, off, src, if log.loose == {} then w else tot)
    }

    /** The next bytes of src go into the block of byte off + w of the file, which may be logged. */
    method CopyIn(ip: nat, off: nat, src: seq<Byte>, w: nat, c: nat, addr: nat, logIt: bool, ghost f: Fs)
      requires Valid() && ip in inodes && 0 < c && w + c <= |src| && Written(f, View(), ip, off, src, w)
      requires var o := off + w; o / BSIZE < MAXFILE && o % BSIZE + c <= BSIZE
      requires addr == BlockNo(View(), ip, (off + w) / BSIZE) != 0
      modifies `blocks, `log
      ensures Valid() && Written(f, View(), ip, off, src, w + c)
      ensures Keeps(old(View()), View()) && SameFrom(old(View()), View(), ip, 0)
      ensures KeepsSolid(old(View()), View())
      ensures if logIt || addr in old(log.logged)
              then Notes(old(log), log, addr) && log.loose == old(log.loose) - {addr}
              else log == old(log).(loose := old(log.loose) + {addr})
    {
      PatchWritten(f, View(), owner, l.first, ip, off, src, w, c);
      var x := Patch(blocks[addr], (off + w) % BSIZE, src[w..w + c]);
      PutDataOwned(View(), owner, l.first, addr, x);
      if logIt {
        PutBlock(addr, x);
      } else {
        PutLoose(addr, x);
      }
      assert View() == Patched(old(View()), addr, (off + w) % BSIZE, src[w..w + c]);
      AddrsSolid(old(View()), View());
    }

    /** As much of the block as can be read is copied, and not passed to log_write. */
    method CopyPart(ip: nat, off: nat, src: seq<Byte>, tot: nat, w: nat, addr: nat, ghost f: Fs)
      requires Valid() && ip in inodes && tot <= w <= |src| && Written(f, View(), ip, off, src, tot)
      requires var o := off + tot; o / BSIZE < MAXFILE && o % BSIZE + (w - tot) <= BSIZE
      requires addr == BlockNo(View(), ip, (off + tot) / BSIZE) != 0
      modifies `blocks, `log
      ensures Valid() && Written(f, View(), ip, off, src, w)
      ensures Keeps(old(View()), View()) && SameFrom(old(View()), View(), ip, 0)
      ensures KeepsSolid(old(View()), View())
      ensures log.base == old(log.base) && log.logged == old(log.logged)
      ensures old(log.room) && |old(log.logged)| < MAXOPBLOCKS ==> log.room
      ensures old(log.loose) == {} ==> SavedTo(f, ip, off, src, tot, w, addr)
    {
      ghost var v, clean := View(), log.loose == {};
      if clean { NoLoose(l, OnDisk(), log); }
      if w == tot {
        return;
      }
      CopyIn(ip, off, src, tot, w - tot, addr, false, f);
      if clean {
        if log.loose == {} { NoLoose(l, OnDisk(), log); }
        assert Saved() == if log.loose == {} then View() else v;
      }
    }

    /** All the bytes are copied, and the block is logged. */
    method CopyAll(ip: nat, off: nat, src: seq<Byte>, tot: nat, w: nat, addr: nat, ghost f: Fs)
      requires Valid() && ip in inodes && tot < w <= |src| && Written(f, View(), ip, off, src, tot)
      requires var o := off + tot; o / BSIZE < MAXFILE && o % BSIZE + (w - tot) <= BSIZE
      requires addr == BlockNo(View(), ip, (off + tot) / BSIZE) != 0
      modifies `blocks, `log
      ensures Valid() && Written(f, View(), ip, off, src, w) && Notes(old(log), log, addr)
      ensures Keeps(old(View()), View()) && SameFrom(old(View()), View(), ip, 0)
      ensures KeepsSolid(old(View()), View())
      ensures old(log.loose) == {} ==> SavedTo(f, ip, off, src, w, w, addr)
    {
      CopyIn(ip, off, src, tot, w - tot, addr, true, f);
      if log.loose == {} { NoLoose(l, OnDisk(), log); }
    }

    /** Log blocks for one turn of the loop of writei(), which starts at byte o. */
    ghost function TurnCost(ip: nat, o: nat): nat
      requires ip in inodes && o / BSIZE < MAXFILE
      reads `used, `blocks, `inodes, `log
    {
      if BlockNo(View(), ip, o / BSIZE) != 0 then 1
      else Cost(o / BSIZE, Addr(View(), ip, NDIRECT), log.logged)
    }

    /** The copy into the block of byte off + tot: all m bytes, which are logged, or those up to `readable`. */
    method CopyRun(ip: nat, off: nat, src: seq<Byte>, tot: nat, m: nat, addr: nat, readable: nat, ghost f: Fs,
                   ghost g: Fs)
      returns (ok: bool, ghost w: nat)
      requires Valid() && ip in inodes && 0 < m && tot + m <= |src| && tot <= readable &&
        Written(f, View(), ip, off, src, tot)
      requires var o := off + tot; o / BSIZE < MAXFILE && o % BSIZE + m <= BSIZE
      requires addr == BlockNo(View(), ip, (off + tot) / BSIZE) != 0
      requires ip in g.inodes && g.inodes.Keys == inodes.Keys && Keeps(g, View()) && Filled(g, ip, off + tot)
      modifies `blocks, `log
      ensures Valid() && tot <= w <= |src| && Written(f, View(), ip, off, src, w) && Keeps(g, View())
      ensures Filled(View(), ip, off + tot + if ok then m else 0)
      ensures if ok then w == tot + m <= readable else w == readable < tot + m
      ensures log.base == old(log.base) && log.logged == if ok then old(log.logged) + {addr} else old(log.logged)
      ensures |log.logged| <= |old(log.logged)| + 1 && (addr in old(log.logged) ==> log.logged == old(log.logged))
      ensures old(log.room) && |old(log.logged)| < MAXOPBLOCKS ==> log.room
      ensures old(log.loose) == {} ==> SavedTo(f, ip, off, src, if ok then w else tot, w, addr)
      ensures SameFrom(old(View()), View(), ip, 0) && KeepsSolid(old(View()), View())
    {
      if tot + m > readable {
        CopyPart(ip, off, src, tot, readable, addr, f);
        FilledKept(g, View(), ip, off + tot);
        ok, w := false, readable;
      } else {
        CopyAll(ip, off, src, tot, tot + m, addr, f);
        FilledMore(g, View(), ip, off + tot, m);
        ok, w := true, tot + m;
      }
    }

    /** The file of f has no block for byte o, and the disk is full. */
    ghost predicate NoBlock(f: Fs, ip: nat, o: nat)
      reads `used
    {
      ip in f.inodes && o / BSIZE < MAXFILE && BlockNo(f, ip, o / BSIZE) == 0 && forall b :: 0 <= b < |used| ==> used[b]
    }

    /** So it is where the byte after the first `done` of those from `off` on belongs. */
    ghost predicate Lacks(f: Fs, ip: nat, off: nat, done: nat)
      reads `used
    {
      NoBlock(f, ip, off + done)
    }

    /** The turn after `tot` bytes fails: the source ends within its block, or there is no block. */
    ghost predicate Fails(f: Fs, ip: nat, off: nat, n: nat, readable: nat, tot: nat, w: nat)
      reads `used
    {
      || (w == readable < n && readable < tot + BSIZE - (off + tot) % BSIZE)
      || (w == tot <= readable && NoBlock(f, ip, off + tot))
    }

    /** Why a write of n bytes stops after `tot`. */
    ghost predicate Stops(f: Fs, ip: nat, off: nat, n: nat, readable: nat, tot: nat, w: nat)
      reads `used
    {
      if tot == n then w == n <= readable else Fails(f, ip, off, n, readable, tot, w)
    }

    /**
      One turn of the loop of writei(), `tot` bytes being done.  It ends the loop when the
      disk is full or when the source can be read only up to `readable` bytes; w says how
      many bytes are in the file's blocks after it.
     */
    method WriteBlock(ip: nat, off: nat, src: seq<Byte>, n: nat, readable: nat, tot: nat, ghost f: Fs)
      returns (ok: bool, m: nat, ghost w: nat)
      requires Valid() && ip in inodes && tot < n <= |src| && tot <= readable && off + n <= MAXFILE * BSIZE
      requires Written(f, View(), ip, off, src, tot) && Filled(View(), ip, off + tot)
      requires ip in f.inodes
      modifies `bitmap, `used, `blocks, `inodes, `owner, `log
      ensures Valid() && OnlyInode(old(inodes), inodes, ip) && tot <= w <= n && Written(f, View(), ip, off, src, w)
      ensures Filled(View(), ip, off + tot + if ok then m else 0)
      ensures old(Addr(View(), ip, NDIRECT)) != 0 ==> Addr(View(), ip, NDIRECT) == old(Addr(View(), ip, NDIRECT))
      ensures ok ==> w == tot + m <= readable && m == Min(n - tot, BSIZE - (off + tot) % BSIZE)
      ensures !ok ==> Fails(f, ip, off, n, readable, tot, w)
      ensures w > tot ==> BlockNo(View(), ip, (off + tot) / BSIZE) != 0
      ensures log.base == old(log.base) && old(log.logged) <= log.logged
      ensures |log.logged| <= |old(log.logged)| + old(TurnCost(ip, off + tot))
      ensures old(log.room) && |old(log.logged)| + old(TurnCost(ip, off + tot)) < MAXOPBLOCKS ==> log.room
      ensures ok && old(TurnCost(ip, off + tot)) > 2 ==> Addr(View(), ip, NDIRECT) in log.logged - {0}
      ensures old(log.loose) == {} ==>
        SavedTo(f, ip, off, src, if ok then w else tot, w, BlockNo(View(), ip, (off + tot) / BSIZE))
      ensures Untouched(f, ip, old(log.logged), (off + tot) / BSIZE) ==>
        Untouched(f, ip, log.logged, (off + tot) / BSIZE + 1)
      ensures SameBut(old(View()), View(), ip, (off + tot) / BSIZE) && KeepsSolid(old(View()), View())
      ensures var bn := (off + tot) / BSIZE;
        Untouched(f, ip, old(log.logged), bn) && SameFrom(f, old(View()), ip, bn) && !ok ==>
        NewBlock(f, View(), ip, (off + tot) / BSIZE, log.logged)
    {
      var addr := Locate(ip, off, src, tot, f);
      ghost var g := View();
      if addr == 0 {
        return false, 0, tot;
      }
      m := Min(n - tot, BSIZE - (off + tot) % BSIZE);
      ok, w := CopyRun(ip, off, src, tot, m, addr, readable, f, g);
    }

    /** bmap() for byte off + tot, when `tot` bytes have been written since f. */
    method Locate(ip: nat, off: nat, src: seq<Byte>, tot: nat, ghost f: Fs) returns (addr: nat)
      requires Valid() && ip in inodes && tot <= |src| && (off + tot) / BSIZE < MAXFILE && ip in f.inodes
      requires Written(f, View(), ip, off, src, tot) && Filled(View(), ip, off + tot)
      modifies `bitmap, `used, `blocks, `inodes, `owner, `log
      ensures Valid() && OnlyInode(old(inodes), inodes, ip) && addr == BlockNo(View(), ip, (off + tot) / BSIZE)
      ensures Written(f, View(), ip, off, src, tot) && Keeps(old(View()), View()) && Filled(View(), ip, off + tot)
      ensures addr == 0 ==> forall b :: 0 <= b < size ==> used[b]
      ensures old(BlockNo(View(), ip, (off + tot) / BSIZE)) != 0 ==> log == old(log)
      ensures old(BlockNo(View(), ip, (off + tot) / BSIZE)) == 0 && addr != 0 ==> addr in log.logged
      ensures old(BlockNo(View(), ip, (off + tot) / BSIZE)) == 0 ==>
        var c := Cost((off + tot) / BSIZE, old(Addr(View(), ip, NDIRECT)), old(log.logged));
        && GoesOn(old(log), log, c) && (old(log.room) && |old(log.logged)| + c < MAXOPBLOCKS ==> log.room)
        && (addr != 0 && c > 2 ==> Addr(View(), ip, NDIRECT) in log.logged - {0})
      ensures old(log.loose) == {} ==> log.loose == {} && Saved() == View()
      ensures SameBut(old(View()), View(), ip, (off + tot) / BSIZE) && KeepsSolid(old(View()), View())
      ensures Untouched(f, ip, old(log.logged), (off + tot) / BSIZE) ==>
        Untouched(f, ip, log.logged + {addr}, (off + tot) / BSIZE + 1)
      ensures var bn := (off + tot) / BSIZE;
        Untouched(f, ip, old(log.logged), bn) && SameFrom(f, old(View()), ip, bn) ==>
        NewBlock(f, View(), ip, (off + tot) / BSIZE, log.logged)
    {
      ghost var g, owner0, j0, bn := View(), owner, log, (off + tot) / BSIZE;
      addr := Bmap(ip, (off + tot) / BSIZE);
      SameWritten(f, g, View(), ip, off, src, tot);
      FilledKept(g, View(), ip, off + tot);
      MapSolid(g, owner0, View(), owner, l.first, ip, bn);
      if log.loose == {} { NoLoose(l, OnDisk(), log); }
      if Untouched(f, ip, j0.logged, bn) {
        UntouchedMore(f, g, owner0, View(), owner, l.first, ip, bn, j0, log, log.logged + {addr});
      }
    }

    /**
      What the loop of writei() has logged after t turns: two blocks each turn, the block
      and its bitmap block; one less if it began in the middle of a block, which is there
      already; and the indirect block and its bitmap block.
     */
    ghost predicate Budget(ip: nat, off: nat, t: nat, extra: nat)
      requires ip in inodes
      reads `used, `blocks, `inodes, `log
    {
      && log.room && extra <= 2 && |log.logged| <= 2 * t + extra
      && (t > 0 && off % BSIZE != 0 ==> |log.logged| < 2 * t + extra)
      && (extra > 0 ==> Addr(View(), ip, NDIRECT) in log.logged - {0})
    }

    /** The loop of writei() after t turns and `tot` bytes; f and j are the state and the journal before it. */
    ghost predicate Going(f: Fs, j: Journal, ip: nat, off: nat, src: seq<Byte>, n: nat, tot: nat, t: nat, extra: nat)
      reads this
    {
      && Valid() && ip in f.inodes && OnlyInode(f.inodes, inodes, ip) && tot <= n <= |src| && off + n <= MAXFILE * BSIZE
      && Written(f, View(), ip, off, src, tot) && Filled(View(), ip, off + tot)
      && log.base == j.base && j.logged <= log.logged && Turns(off, n, tot, t)
      && (n <= MAXCHUNK && j.room && j.logged == {} ==> Budget(ip, off, t, extra))
      && (j.loose == {} ==> log.loose == {})
      && KeepsSolid(f, View()) && (tot < n ==> SameFrom(f, View(), ip, (off + tot) / BSIZE))
      && (j.logged == {} && tot < n ==> Untouched(f, ip, log.logged, (off + tot) / BSIZE))
    }

    ghost predicate Ends(f: Fs, j: Journal, ip: nat, off: nat, src: seq<Byte>, n: nat, tot: nat, w: nat)
      reads this
    {
      Valid() && EndsAs(f, j, View(), Saved(), log, ip, off, src, n, tot, w)
    }

    /** The turn after `tot` bytes has failed, with w bytes in the cache. */
    ghost predicate Stuck(f: Fs, j: Journal, ip: nat, off: nat, src: seq<Byte>, n: nat, tot: nat, t: nat, w: nat)
      reads this
    {
      && Valid() && ip in f.inodes && OnlyInode(f.inodes, inodes, ip)
      && tot <= w <= n <= |src| && tot < n && off + n <= MAXFILE * BSIZE && Turns(off, n, tot, t)
      && Written(f, View(), ip, off, src, w) && Filled(View(), ip, off + tot)
      && log.base == j.base && j.logged <= log.logged && KeepsSolid(f, View())
      && (n <= MAXCHUNK && j.room && j.logged == {} ==> log.room && |log.logged| < MAXOPBLOCKS)
      && var bn := (off + tot) / BSIZE;
         && (w > tot ==> BlockNo(View(), ip, bn) != 0)
         && (j.loose == {} ==> SavedTo(f, ip, off, src, tot, w, BlockNo(View(), ip, bn)))
         && (j.logged == {} ==> NewBlock(f, View(), ip, bn, log.logged))
    }

    lemma StuckEnds(f: Fs, j: Journal, ip: nat, off: nat, src: seq<Byte>, n: nat, tot: nat, t: nat, w: nat)
      requires Stuck(f, j, ip, off, src, n, tot, t, w) && NoHoles(f, ip)
      ensures Ends(f, j, ip, off, src, n, tot, w)
    {
      NextTurn(off, n, tot, t);
      if j.loose == {} && j.logged == {} {
        TornSaved(f, ip, off, src, tot, w);
      }
    }

    /** One turn, within the budget. */
    method WriteTurn(ip: nat, off: nat, src: seq<Byte>, n: nat, readable: nat, tot: nat,
                     ghost f: Fs, ghost j: Journal, ghost t: nat, ghost extra: nat)
      returns (ok: bool, m: nat, ghost w: nat, ghost more: nat)
      requires Going(f, j, ip, off, src, n, tot, t, extra) && tot < n && tot <= readable && NoHoles(f, ip)
      modifies `bitmap, `used, `blocks, `inodes, `owner, `log
      ensures ok ==> m > 0 && w == tot + m <= readable && Going(f, j, ip, off, src, n, w, t + 1, more)
      ensures !ok ==> Stuck(f, j, ip, off, src, n, tot, t, w)
      ensures !ok ==> Stops(f, ip, off, n, readable, tot, w)
    {
      NextTurn(off, n, tot, t);
      ghost var c := TurnCost(ip, off + tot);
      ok, m, w := WriteBlock(ip, off, src, n, readable, tot, f);
      more := if c > 2 then c - 2 else extra;
    }

    /** The loop of writei(). */
    method WriteLoop(ip: nat, src: seq<Byte>, readable: nat, off: nat, n: nat)
      returns (tot: nat, ghost w: nat)
      requires Valid() && Full() && ip in inodes && n <= |src| && off <= inodes[ip].size && off + n <= MAXFILE * BSIZE
      modifies `bitmap, `used, `blocks, `inodes, `owner, `log
      ensures Ends(old(View()), old(log), ip, off, src, n, tot, w)
      ensures Stops(old(View()), ip, off, n, readable, tot, w)
    {
      ghost var f, j, t, extra := View(), log, 0, 0;
      tot, w := 0, 0;
      while tot < n
        invariant Going(f, j, ip, off, src, n, tot, t, extra) && tot <= readable && w == tot
      {
        var ok, m;
        ok, m, w, extra := WriteTurn(ip, off, src, n, readable, tot, f, j, t, extra);
        if !ok {
          StuckEnds(f, j, ip, off, src, n, tot, t, w);
          return;
        }
        tot, t := tot + m, t + 1;
      }
      if j.loose == {} { NoLoose(l, OnDisk(), log); }
    }

    /** Where the loop stops, a logged block is beyond the old end of the file. */
    lemma TornSaved(f: Fs, ip: nat, off: nat, src: seq<Byte>, tot: nat, w: nat)
      requires ip in inodes && ip in f.inodes && NoHoles(f, ip) && (off + tot) / BSIZE < MAXFILE && tot <= w <= |src|
      requires NewBlock(f, View(), ip, (off + tot) / BSIZE, log.logged)
      requires SavedTo(f, ip, off, src, tot, w, BlockNo(View(), ip, (off + tot) / BSIZE))
      requires w > tot ==> BlockNo(View(), ip, (off + tot) / BSIZE) != 0
      ensures SavedAs(f, Saved(), ip, off, src, tot, w)
    {
      var bn := (off + tot) / BSIZE;
      assert BlockNo(f, ip, bn) == 0 ==> f.inodes[ip].size <= bn * BSIZE;
    }

    ghost predicate Leaves(f: Fs, j: Journal, ip: nat, off: nat, src: seq<Byte>, n: nat, tot: nat, w: nat, cap: nat)
      reads this
    {
      Valid() && Full() && LeavesAs(f, j, View(), Saved(), log, ip, off, src, n, tot, w, cap)
    }

    /** Which block is left loose, and how many bytes count, by the state before the call. */
    lemma TornIs(f: Fs, j: Journal, ip: nat, off: nat, n: nat, readable: nat, tot: nat, w: nat)
      requires ip in f.inodes && off <= f.inodes[ip].size && off + n <= MAXFILE * BSIZE && tot <= w <= n
      requires j.loose == {} && j.logged == {} && LooseAs(f, j, log, ip, off + tot, w > tot)
      requires Stops(f, ip, off, n, readable, tot, w) && (tot == 0 || tot == n || (off + tot) % BSIZE == 0)
      ensures TornAs(f, ip, off, n, readable, log.loose)
    {
      if tot < n && w == readable < n && readable < tot + BSIZE - (off + tot) % BSIZE {
        SameBlock(off + tot, readable - tot);
      } else if tot < n {
        assert (off + tot) / BSIZE <= (off + readable) / BSIZE;
      }
    }

    /** Fewer bytes than could be are counted only where a block is missing and the disk is full. */
    ghost predicate CountAs(f: Fs, ip: nat, off: nat, n: nat, readable: nat, tot: nat)
      reads `used
    {
      tot == Countable(off, n, readable) || (tot < Countable(off, n, readable) && NoBlock(f, ip, off + tot))
    }

    lemma CountIs(f: Fs, ip: nat, off: nat, n: nat, readable: nat, tot: nat, w: nat)
      requires tot <= w <= n && Stops(f, ip, off, n, readable, tot, w)
      requires tot == 0 || tot == n || (off + tot) % BSIZE == 0
      ensures CountAs(f, ip, off, n, readable, tot)
    {
      if tot < n && w == readable < n && readable < tot + BSIZE - (off + tot) % BSIZE {
        SameBlock(off + tot, readable - tot);
      }
    }

    method Writei(ip: nat, src: seq<Byte>, readable: nat, off: nat, n: nat)
      returns (r: int, ghost w: nat)
      requires Valid() && Full() && ip in inodes && n <= |src| && off < UINT && n < UINT
      modifies this
      ensures Valid() && Full()
      ensures r == -1 <==> off > old(inodes[ip].size) || off + n > MAXFILE * BSIZE
      ensures r == -1 ==> unchanged(this)
      ensures r != -1 ==> r >= 0 && Leaves(old(View()), old(log), ip, off, src, n, r, w, MAXOPBLOCKS)
      ensures r != -1 ==> ip in inodes && dinodes == old(dinodes)[ip := inodes[ip]]
      ensures r != -1 ==> Stops(old(View()), ip, off, n, readable, r, w)
      ensures r != -1 ==> CountAs(old(View()), ip, off, n, readable, r)
      ensures old(log.loose) == {} && old(log.logged) == {} ==>
        TornAs(old(View()), ip, off, n, readable, log.loose)
      ensures KeepsSolid(old(View()), View())
    {
      if off > inodes[ip].size || (off + n) % UINT < off {
        NoTear(View(), ip, off, n, readable);
        return -1, 0;
      }
      if (off + n) % UINT > MAXFILE * BSIZE {
        NoTear(View(), ip, off, n, readable);
        return -1, 0;
      }
      ghost var f, j := View(), log;
      var tot;
      tot, w := WriteBytes(ip, src, readable, off, n);
      if j.loose == {} && j.logged == {} { TornIs(f, j, ip, off, n, readable, tot, w); }
      r := tot;
    }

    /** writei() once the offset and the count are in order. */
    method WriteBytes(ip: nat, src: seq<Byte>, readable: nat, off: nat, n: nat)
      returns (tot: nat, ghost w: nat)
      requires Valid() && Full() && ip in inodes && n <= |src| && off <= inodes[ip].size && off + n <= MAXFILE * BSIZE
      modifies this
      ensures Leaves(old(View()), old(log), ip, off, src, n, tot, w, MAXOPBLOCKS)
      ensures ip in inodes && dinodes == old(dinodes)[ip := inodes[ip]]
      ensures Stops(old(View()), ip, off, n, readable, tot, w) && CountAs(old(View()), ip, off, n, readable, tot)
    {
      tot, w := WriteLoop(ip, src, readable, off, n);
      CountIs(old(View()), ip, off, n, readable, tot, w);
      GrowSize(ip, off, src, n, tot, w, old(View()), old(log));
      UpdateInode(ip, off, src, n, tot, w, old(View()), old(log));
    }

    /** The size of the file after the loop. */
    method GrowSize(ip: nat, off: nat, src: seq<Byte>, ghost n: nat, tot: nat, ghost w: nat, ghost f: Fs,
                    ghost j: Journal)
      requires Ends(f, j, ip, off, src, n, tot, w) && off <= f.inodes[ip].size
      requires forall y :: y in f.inodes ==> NoHoles(f, y)
      modifies `inodes
      ensures Leaves(f, j, ip, off, src, n, tot, w, MAXOPBLOCKS - 1)
    {
      EndsLeaves(f, j, View(), Saved(), log, owner, l.first, ip, off, src, n, tot, w);
      ghost var g, s := View(), Saved();
      if off + tot > inodes[ip].size {
        inodes := inodes[ip := inodes[ip].(size := off + tot)];
      }
      assert View() == Resized(f, g, ip, off + tot) && Saved() == Resized(f, s, ip, off + tot);
    }

    /** The inode goes to its block. */
    method UpdateInode(ip: nat, ghost off: nat, ghost src: seq<Byte>, ghost n: nat, ghost tot: nat, ghost w: nat,
                       ghost f: Fs, ghost j: Journal)
      requires Leaves(f, j, ip, off, src, n, tot, w, MAXOPBLOCKS - 1)
      modifies `dinodes, `log
      ensures Leaves(f, j, ip, off, src, n, tot, w, MAXOPBLOCKS)
      ensures ip in inodes && dinodes == old(dinodes)[ip := inodes[ip]]
    {
      Iupdate(ip);
      LeavesNoted(f, j, View(), Saved(), old(log), log, owner, l, ip, off, src, n, tot, w);
    }

    /** begin_op(): the blocks as the log has them are the base of a new transaction. */
    ghost method BeginTransaction()
      requires Valid()
      modifies `log
      ensures Valid() && log == Begin(old(log))
    {
      BeginSynced(l, OnDisk(), log);
      log := Begin(log);
    }

    /**
      No block is loose, and all inodes are in their blocks: what the log has is the files as
      they are.
     */
    ghost predicate Settled()
      reads `inodes, `dinodes, `log
    {
      log.loose == {} && dinodes == inodes
    }

    /** The transaction that has just ended, `done` bytes of a filewrite() being written. */
    ghost function ThisTx(done: nat): Tx
      reads `used, `inodes, `bitmap, `log
    {
      Tx(log.writes, log.kept, Saved(), bitmap, done)
    }

    /** writei() as a transaction of its own. */
    method Transaction(ip: nat, src: seq<Byte>, readable: nat, off: nat, n: nat, ghost end: nat, ghost f: Fs)
      returns (r: int, ghost w: nat, ghost v: Fs, ghost s: Fs)
      requires f == View() && end == off + readable
      requires Valid() && Full() && ip in inodes && n <= |src| && off < UINT && n <= MAXCHUNK && log.room
      modifies this
      ensures Valid() && Full() && ip in inodes && log.room && |log.logged| <= MAXOPBLOCKS && log.base == old(log.kept)
      ensures r == -1 <==> off > old(inodes[ip].size) || off + n > MAXFILE * BSIZE
      ensures v == View() && s == Saved() && (r == -1 ==> v == f && log.saved == old(log.saved))
      ensures r != -1 ==> 0 <= r <= w <= n && Stored(f, v, ip, off, src, r, w)
      ensures r != -1 && old(log.loose) == {} ==> Stored(f, s, ip, off, src, r, r)
      ensures r != -1 ==> Stops(f, ip, off, n, readable, r, w)
      ensures old(Settled()) ==> dinodes == inodes && (r == -1 || r == n ==> Settled())
      ensures old(Settled()) ==> TornAs(f, ip, off, n, readable, log.loose)
      ensures old(Settled()) && Solid(f, ip) ==> (Settled() <==> !Tears(f, ip, off, n, readable))
      ensures old(Settled()) && !Settled() ==> 0 < readable < n && end % BSIZE != 0
      ensures KeptOn(f, v, ip)
    {
      StillSelf(f, ip);
      BeginTransaction();
      r, w := Writei(ip, src, readable, off, n);
      v, s := View(), Saved();
      if old(log.loose) == {} && log.loose != {} { TornEnd(f, ip, off, n, readable, end, log.loose); }
      if old(Settled()) && Solid(f, ip) { TornIff(f, ip, off, n, readable, log.loose); }
      assert r != -1 && old(dinodes) == old(inodes) ==> dinodes == inodes;
    }

    /**
      One transaction of filewrite(), after i bytes; f is the state before all of them.  Then
      `done` bytes are written and w are in the cache.
     */
    method WriteChunk(ip: nat, off: nat, src: seq<Byte>, i: nat, n1: nat, readable: nat, ghost end: nat, ghost f: Fs)
      returns (r: int, ghost done: nat, ghost w: nat)
      requires Valid() && Full() && ip in inodes && i + n1 <= |src| && i <= readable && end == off + readable
      requires n1 <= MAXCHUNK && off + i < UINT && log.room && Wrote(f, View(), ip, off, src, i, i)
      modifies this
      ensures Valid() && Full() && log.room && |log.logged| <= MAXOPBLOCKS && ip in inodes && log.base == old(log.kept)
      ensures -1 <= r <= n1 && done == i + (if r == -1 then 0 else r) && Wrote(f, View(), ip, off, src, done, w)
      ensures r == n1 ==> w == i + n1 <= readable
      ensures r != n1 ==> w == readable < i + n1 || off > f.inodes[ip].size || off + i + n1 > MAXFILE * BSIZE ||
                          Lacks(old(View()), ip, off, done)
      ensures r > 0 ==> off <= f.inodes[ip].size && off + done <= inodes[ip].size <= MAXFILE * BSIZE
      ensures old(Settled()) && !Settled() ==> i < readable < i + n1 && end % BSIZE != 0
      ensures KeptOn(old(View()), View(), ip)
      ensures old(Settled()) ==> dinodes == inodes && (r == n1 ==> Settled())
      ensures old(Settled()) ==> Wrote(f, Saved(), ip, off, src, done, done)
    {
      WroteSize(f, View(), ip, off, src, i);
      ghost var g, u, v, s := View(), 0, View(), Saved();
      var rest, at := src[i..], off + i;
      if log.loose == {} { NoLoose(l, OnDisk(), log); }
      r, u, v, s := Transaction(ip, rest, readable - i, at, n1, end, g);
      done, w := i, i;
      if r != -1 {
        done, w := i + r, i + u;
        if r != n1 { ChunkFails(g, ip, off, i, at, n1, readable, readable - i, r, u, done); }
        WroteMore(f, g, v, ip, off, src, i, at, rest, r, u, done, w);
        if old(log.loose) == {} { WroteMore(f, g, s, ip, off, src, i, at, rest, r, r, done, done); }
      }
    }

    lemma ChunkFails(g: Fs, ip: nat, off: nat, i: nat, at: nat, n1: nat, readable: nat, rest: nat, r: nat, u: nat,
                     done: nat)
      requires at == off + i && readable == i + rest && done == i + r && r < n1 && Stops(g, ip, at, n1, rest, r, u)
      ensures i + u == readable < i + n1 || Lacks(g, ip, off, done)
    {
    }

    lemma LackedAll(f: Fs, g: Fs, ip: nat, off: nat, done: nat)
      requires KeptOn(f, g, ip) && Lacks(g, ip, off, done)
      ensures Lacks(f, ip, off, done)
    {
      assert StillAt(f, g, ip, (off + done) / BSIZE);
    }

    /** The transaction that has just ended joins those before it. */
    lemma TxOk(f: Fs, base: map<nat, Raw>, ip: nat, off: nat, src: seq<Byte>, txs: seq<Tx>, done: nat)
      requires Valid() && dinodes == inodes && log.room && |log.logged| <= MAXOPBLOCKS
      requires Steps(l, f, base, ip, off, src, txs) && log.base == Before(base, txs, |txs|)
      requires Wrote(f, Saved(), ip, off, src, done, done) && (txs != [] ==> txs[|txs| - 1].done <= done)
      ensures Steps(l, f, base, ip, off, src, txs + [ThisTx(done)])
    {
      var tx := ThisTx(done);
      assert Shows(l, tx) by {
        forall b | b in tx.image ensures tx.image[b] == Content(l, Disk(tx.fs.inodes, tx.bitmap, tx.fs.blocks), b) {
          assert KeptAt(l, OnDisk(), log, b);
        }
        forall b: nat | l.inodestart <= b < |log.saved| ensures b in tx.image {
          assert KeptAt(l, OnDisk(), log, b);
        }
      }
      forall x | 0 <= x < |tx.writes| ensures tx.writes[x].b in log.base {
        ReplayHas(log.base, log.writes, x);
      }
      StepsMore(l, f, base, ip, off, src, txs, tx);
    }

    /**
      What filewrite() has done so far, `done` bytes: each transaction left the files with the
      first bytes of src spliced in, as the log has them.
     */
    ghost predicate Recorded(f: Fs, base: map<nat, Raw>, ip: nat, off: nat, src: seq<Byte>, txs: seq<Tx>, done: nat)
      reads this
    {
      && Steps(l, f, base, ip, off, src, txs) && log.kept == Before(base, txs, |txs|)
      && done == if txs == [] then 0 else txs[|txs| - 1].done
    }

    /**
      filewrite() on an inode: chunks of at most MAXCHUNK bytes, each a transaction.  The
      file offset becomes next.  `readable` bytes of src can be copied in.  If the files were
      settled before, txs are the transactions; what the log has in the end is exactly what
      the offset counts.
     */
    method Filewrite(ip: nat, writable: bool, off: nat, src: seq<Byte>, n: int, readable: nat)
      returns (ret: int, next: nat, ghost done: nat, ghost w: nat, ghost txs: seq<Tx>)
      requires Valid() && Full() && ip in inodes && off < UINT && n <= |src| && log.room
      modifies this
      ensures Valid() && Full() && log.room && next == off + done
      ensures ret == n >= 0 || ret == -1
      ensures ret == n > 0 ==> writable && done == n == w <= readable
      ensures ret == n > 0 ==> off <= old(inodes[ip].size) && off + n <= MAXFILE * BSIZE
      ensures ret == -1 && writable && n >= 0 ==>
        w == readable < n || off > old(inodes[ip].size) || off + n > MAXFILE * BSIZE ||
        (done < n && Lacks(old(View()), ip, off, done))
      ensures Wrote(old(View()), View(), ip, off, src, done, w)
      ensures old(Settled()) && !Settled() ==> 0 < readable < n && (off + readable) % BSIZE != 0
      ensures KeepsSolid(old(View()), View())
      ensures old(Settled()) ==> Recorded(old(View()), old(log.kept), ip, off, src, txs, done)
    {
      if !writable {
        WroteNone(View(), ip, off, src);
        return -1, off, 0, 0, [];
      }
      var i;
      i, next, done, w, txs := WriteChunks(ip, off, src, n, readable, off + readable, View(), log.kept, Settled());
      ret := if i == n then n else -1;
    }

    /** The loop of filewrite(), from the files f and the blocks `base`. */
    method WriteChunks(ip: nat, off: nat, src: seq<Byte>, n: int, readable: nat, ghost end: nat,
                       ghost f: Fs, ghost base: map<nat, Raw>, ghost settled: bool)
      returns (i: nat, next: nat, ghost done: nat, ghost w: nat, ghost txs: seq<Tx>)
      requires Valid() && Full() && ip in inodes && off < UINT && n <= |src| && log.room
      requires end == off + readable && f == View() && base == log.kept && settled == Settled()
      modifies this
      ensures Valid() && Full() && log.room && next == off + done && (i == n ==> done == n == w <= readable)
      ensures i == n > 0 ==> off <= f.inodes[ip].size && off + n <= MAXFILE * BSIZE
      ensures i < n ==> w == readable < n || off > f.inodes[ip].size || off + n > MAXFILE * BSIZE ||
                        (done < n && Lacks(f, ip, off, done))
      ensures i > n ==> i == 0
      ensures Wrote(f, View(), ip, off, src, done, w) && KeptOn(f, View(), ip)
      ensures settled && !Settled() ==> 0 < readable < n && end % BSIZE != 0
      ensures settled ==> Recorded(f, base, ip, off, src, txs, done)
    {
      WroteNone(f, ip, off, src);
      StillSelf(f, ip);
      i, next, done, w, txs := 0, off, 0, 0, [];
      while i < n
        invariant Valid() && Full() && log.room && ip in inodes && Wrote(f, View(), ip, off, src, i, i)
        invariant (n >= 0 ==> i <= n) && (n < 0 ==> i == 0) && i <= readable && next == off + i && w == i == done
        invariant i > 0 ==> off <= f.inodes[ip].size && next <= MAXFILE * BSIZE
        invariant KeptOn(f, View(), ip)
        invariant settled ==> Settled() && Recorded(f, base, ip, off, src, txs, i)
      {
        var n1 := Min(n - i, MAXCHUNK);
        var r;
        r, done, w, txs := RecordChunk(ip, off, src, i, n1, readable, end, f, base, txs, settled);
        if r > 0 {
          next := next + r;
        }
        if r != n1 {
          break;
        }
        i := i + r;
      }
    }

    /** One turn of the loop of filewrite(). */
    method RecordChunk(ip: nat, off: nat, src: seq<Byte>, i: nat, n1: nat, readable: nat, ghost end: nat,
                       ghost f: Fs, ghost base: map<nat, Raw>, ghost txs: seq<Tx>, ghost settled: bool)
      returns (r: int, ghost done: nat, ghost w: nat, ghost more: seq<Tx>)
      requires Valid() && Full() && ip in inodes && 0 < n1 <= MAXCHUNK && i + n1 <= |src|
      requires i <= readable && off + i < UINT
      requires end == off + readable && KeptOn(f, View(), ip)
      requires log.room && Wrote(f, View(), ip, off, src, i, i)
      requires settled ==> Settled() && Recorded(f, base, ip, off, src, txs, i)
      modifies this
      ensures Valid() && Full() && log.room && ip in inodes && -1 <= r <= n1 && done == i + if r == -1 then 0 else r
      ensures Wrote(f, View(), ip, off, src, done, w) && (r == n1 ==> w == done <= readable)
      ensures r != n1 ==> w == readable < i + n1 || off > f.inodes[ip].size || off + i + n1 > MAXFILE * BSIZE ||
                          Lacks(f, ip, off, done)
      ensures r > 0 ==> off <= f.inodes[ip].size && off + done <= inodes[ip].size <= MAXFILE * BSIZE
      ensures settled && !Settled() ==> i < readable < i + n1 && end % BSIZE != 0
      ensures KeptOn(f, View(), ip)
      ensures settled ==> Recorded(f, base, ip, off, src, more, done) && (r == n1 ==> Settled())
    {
      r, done, w := WriteChunk(ip, off, src, i, n1, readable, end, f);
      KeptTwice(f, old(View()), View(), ip);
      if Lacks(old(View()), ip, off, done) { LackedAll(f, old(View()), ip, off, done); }
      more := txs;
      if settled {
        TxOk(f, base, ip, off, src, txs, done);
        more := txs + [ThisTx(done)];
      }
    }
  }

  /** A disk with one file of one block, which is cleared, and one free block. */
  function One(): Fs {
    Fs([true, true, true, true, false], seq(5, i => Zeros()), map[0 := Inode(NoAddrs()[0 := 3], BSIZE)])
  }

  lemma OneOwned()
    ensures Owned(One(), map[3 := Slot(0, 0)], 3) && NoHoles(One(), 0)
    ensures forall x :: 0 <= x < BSIZE ==> Data(One(), 0)[x] == 0
  {
  }

  lemma OneBits(bits: B.BitBlock)
    requires bits == seq(BSIZE, i => if i == 0 then 15 as bv8 else 0)
    ensures B.Says([bits], One().used)
  {
    forall b | 0 <= b < 5 ensures One().used[b] == B.Bit([bits], b) {
      assert b == 0 || b == 1 || b == 2 || b == 3 || b == 4;
    }
  }

  method OneFile() returns (fs: FileSystem)
    ensures fresh(fs) && fs.Valid() && fs.Full() && fs.Settled() && fs.View() == One() && fs.log.logged == {}
  {
    var bits := seq(BSIZE, i => if i == 0 then 15 as bv8 else 0);
    OneOwned();
    OneBits(bits);
    fs := new FileSystem(Layout(1, 2, 3), [bits], One().blocks, One().inodes, One().used, map[3 := Slot(0, 0)]);
  }

  /**
    A copy that fails within a block that the file has: one byte of two can be read.  The call
    returns 0 and leaves the byte in the cached block, which is not logged; what the log has,
    and what is read when the buffer has been recycled, is the old byte.
   */
  method TornWrite() returns (r: int, ghost v: Fs, ghost s: Fs, ghost loose: set<nat>)
    ensures r == 0 && loose == {3} && 0 in v.inodes && 0 in s.inodes
    ensures |Data(v, 0)| == |Data(s, 0)| == BSIZE && Data(v, 0)[0] == 7 && Data(s, 0)[0] == 0
  {
    var fs := OneFile();
    OneOwned();
    ghost var w;
    r, w := fs.Writei(0, [7, 7], 1, 0, 2);
    v, s, loose := fs.View(), fs.Saved(), fs.log.loose;
  }
}
