/**
  The disk blocks of a file system (kernel/fs.h): inode blocks, bitmap blocks and data blocks,
  and the record of what log_write has been given of them.

  log_write is called with a changed buffer, so the log knows the contents of a block at its
  last call.  A block that is changed without a call is `loose`: what the log has of it, and
  what is read back if its buffer is recycled, are its contents of before.
 */
module Image {
  import opened Collections
  import opened Params
  import B = Bitmap
  import opened Inodes

  const IPB: nat := 16

  /** Inode blocks start at inodestart, bitmap blocks at bmapstart, data blocks at first. */
  datatype Layout = Layout(inodestart: nat, bmapstart: nat, first: nat) {
    predicate Fits(bitmap: B.Map, size: nat) {
      inodestart <= bmapstart && bmapstart + |bitmap| <= first <= size
    }

    function BitmapBlock(b: nat): nat { bmapstart + b / BPB }

    function InodeBlock(i: nat): nat { inodestart + i / IPB }
  }

  datatype Raw = Nodes(nodes: seq<Inode>) | Bits(bits: B.BitBlock) | Bytes(bytes: Block)

  datatype Disk = Disk(dinodes: map<nat, Inode>, bitmap: B.Map, blocks: seq<Block>)

  /** The inodes of inode block q. */
  function NodesIn(dinodes: map<nat, Inode>, q: nat): seq<Inode> {
    seq(IPB, k requires 0 <= k < IPB =>
      if q * IPB + k in dinodes then dinodes[q * IPB + k] else Inode(NoAddrs(), 0))
  }

  function Content(l: Layout, d: Disk, b: nat): Raw
    requires b < |d.blocks|
  {
    if l.inodestart <= b < l.bmapstart then Nodes(NodesIn(d.dinodes, b - l.inodestart))
    else if l.bmapstart <= b < l.bmapstart + |d.bitmap| then Bits(d.bitmap[b - l.bmapstart])
    else Bytes(d.blocks[b])
  }

  // --- What log_write is given ---

  datatype Write = Write(b: nat, data: Raw)

  /** The contents after the writes ws, from `base` on. */
  function Replay(base: map<nat, Raw>, ws: seq<Write>): map<nat, Raw> {
    if ws == [] then base
    else Replay(base, ws[..|ws| - 1])[ws[|ws| - 1].b := ws[|ws| - 1].data]
  }

  lemma {:induction false} ReplayHas(base: map<nat, Raw>, ws: seq<Write>, k: nat)
    requires k < |ws|
    ensures ws[k].b in Replay(base, ws)
  {
    if k + 1 < |ws| { ReplayHas(base, ws[..|ws| - 1], k); }
  }

  function Touched(ws: seq<Write>): set<nat> {
    if ws == [] then {} else Touched(ws[..|ws| - 1]) + {ws[|ws| - 1].b}
  }

  /** No write came when MAXOPBLOCKS blocks had been written already. */
  ghost predicate Small(ws: seq<Write>) {
    forall k :: 0 <= k < |ws| ==> |Touched(ws[..k])| < MAXOPBLOCKS
  }

  /**
    The calls `writes` of the current transaction, the blocks `logged` that they named, and
    the contents `kept` that the log has; these were `base` when the transaction began.
    `saved` holds the data blocks of `kept`.  `room` says that all transactions were small.
   */
  datatype Journal = Journal(
    base: map<nat, Raw>, writes: seq<Write>, logged: set<nat>, room: bool,
    kept: map<nat, Raw>, saved: seq<Block>, loose: set<nat>)

  ghost predicate Honest(j: Journal) {
    && j.kept == Replay(j.base, j.writes) && j.kept.Keys == j.base.Keys
    && j.logged == Touched(j.writes) && (j.room ==> Small(j.writes))
  }

  /** log_write() of block b with contents x. */
  function Note(j: Journal, b: nat, x: Raw): Journal {
    Journal(j.base, j.writes + [Write(b, x)], j.logged + {b}, j.room && |j.logged| < MAXOPBLOCKS,
            j.kept[b := x], if x.Bytes? && b < |j.saved| then j.saved[b := x.bytes] else j.saved, j.loose - {b})
  }

  lemma NoteHonest(j: Journal, b: nat, x: Raw)
    requires Honest(j) && b in j.kept
    ensures Honest(Note(j, b, x))
  {
    var ws := j.writes + [Write(b, x)];
    assert ws[..|j.writes|] == j.writes;
    forall k | j.room && |j.logged| < MAXOPBLOCKS && 0 <= k < |ws| ensures |Touched(ws[..k])| < MAXOPBLOCKS {
      assert k < |j.writes| ==> ws[..k] == j.writes[..k];
    }
  }

  /** One call of log_write for block b came between j0 and j. */
  ghost predicate Notes(j0: Journal, j: Journal, b: nat) {
    && j.base == j0.base && j.logged == j0.logged + {b} && |j.logged| <= |j0.logged| + 1
    && (b in j0.logged ==> j.logged == j0.logged)
    && j.room == (j0.room && |j0.logged| < MAXOPBLOCKS)
  }

  lemma NoteIs(j: Journal, b: nat, x: Raw)
    requires Honest(j) && b in j.kept
    ensures Honest(Note(j, b, x)) && Notes(j, Note(j, b, x), b)
  {
    NoteHonest(j, b, x);
    if b in j.logged { assert j.logged + {b} == j.logged; }
  }

  /** The transaction went on between j0 and j, and at most n more blocks are in it. */
  ghost predicate GoesOn(j0: Journal, j: Journal, n: nat) {
    j.base == j0.base && j0.logged <= j.logged && |j.logged| <= |j0.logged| + n && j.loose <= j0.loose
  }

  /** Blocks that came into the transaction are bitmap blocks, blocks that were free, or block p. */
  ghost predicate OnlyNew(j0: Journal, j: Journal, used: seq<bool>, first: nat, p: nat) {
    forall b :: b in j.logged && b !in j0.logged ==> b < first || (b < |used| && !used[b]) || b == p
  }

  /** begin_op(): a new transaction. */
  function Begin(j: Journal): Journal {
    j.(base := j.kept, writes := [], logged := {})
  }

  /** Every inode has its place in an inode block. */
  ghost predicate Housed(l: Layout, inodes: map<nat, Inode>) {
    forall i :: i in inodes ==> l.InodeBlock(i) < l.bmapstart
  }

  ghost predicate Fresh(j: Journal, blocks: seq<Block>, b: nat)
    requires b < |blocks| == |j.saved|
  {
    b in j.loose || j.saved[b] == blocks[b]
  }

  ghost predicate KeptAt(l: Layout, d: Disk, j: Journal, b: nat)
    requires b < |d.blocks| == |j.saved|
  {
    b in j.kept && j.kept[b] == Content(l, d.(blocks := j.saved), b)
  }

  /** The log has the contents of every block, except for the loose ones, which are data. */
  ghost predicate Synced(l: Layout, d: Disk, j: Journal) {
    && |j.saved| == |d.blocks| && l.Fits(d.bitmap, |d.blocks|)
    && (forall b {:trigger KeptAt(l, d, j, b)} :: l.inodestart <= b < |d.blocks| ==> KeptAt(l, d, j, b))
    && (forall b :: b in j.kept ==> l.inodestart <= b < |d.blocks|)
    && (forall b {:trigger Fresh(j, d.blocks, b)} :: 0 <= b < |d.blocks| ==> Fresh(j, d.blocks, b))
    && (forall b :: b in j.loose ==> l.first <= b < |d.blocks|)
  }

  /** The journal of a disk that has just been mounted. */
  function Mounted(l: Layout, d: Disk): Journal {
    var im := map b: nat | l.inodestart <= b < |d.blocks| :: Content(l, d, b);
    Journal(im, [], {}, true, im, d.blocks, {})
  }

  lemma MountedSynced(l: Layout, d: Disk)
    requires l.Fits(d.bitmap, |d.blocks|)
    ensures Synced(l, d, Mounted(l, d)) && Honest(Mounted(l, d))
  {
    var j := Mounted(l, d);
    forall b | l.inodestart <= b < |d.blocks| ensures KeptAt(l, d, j, b) {
      assert d.(blocks := j.saved) == d;
    }
  }

  lemma BeginSynced(l: Layout, d: Disk, j: Journal)
    requires Synced(l, d, j) && Honest(j)
    ensures Synced(l, d, Begin(j)) && Honest(Begin(j))
  {
    var n := Begin(j);
    forall b | l.inodestart <= b < |d.blocks| ensures KeptAt(l, d, n, b) {
      assert KeptAt(l, d, j, b);
    }
    forall b | 0 <= b < |d.blocks| ensures Fresh(n, d.blocks, b) {
      assert Fresh(j, d.blocks, b);
    }
  }

  lemma NoLoose(l: Layout, d: Disk, j: Journal)
    requires Synced(l, d, j) && j.loose == {}
    ensures j.saved == d.blocks
  {
    forall b | 0 <= b < |d.blocks| ensures j.saved[b] == d.blocks[b] {
      assert Fresh(j, d.blocks, b);
    }
  }

  /** Bitmap block q changes and is logged. */
  lemma SyncBits(l: Layout, d: Disk, j: Journal, q: nat, x: B.BitBlock)
    requires Synced(l, d, j) && q < |d.bitmap|
    ensures Synced(l, d.(bitmap := d.bitmap[q := x]), Note(j, l.bmapstart + q, Bits(x))) && l.bmapstart + q in j.kept
  {
    assert KeptAt(l, d, j, l.bmapstart + q);
    var e, n := d.(bitmap := d.bitmap[q := x]), Note(j, l.bmapstart + q, Bits(x));
    forall b | l.inodestart <= b < |d.blocks| ensures KeptAt(l, e, n, b) {
      assert KeptAt(l, d, j, b);
    }
    forall b | 0 <= b < |d.blocks| ensures Fresh(n, e.blocks, b) {
      assert Fresh(j, d.blocks, b);
    }
  }

  /** Data block b gets the contents x and is logged. */
  lemma SyncData(l: Layout, d: Disk, j: Journal, b: nat, x: Block)
    requires Synced(l, d, j) && l.first <= b < |d.blocks|
    ensures Synced(l, d.(blocks := d.blocks[b := x]), Note(j, b, Bytes(x))) && b in j.kept
  {
    assert KeptAt(l, d, j, b);
    var e, n := d.(blocks := d.blocks[b := x]), Note(j, b, Bytes(x));
    forall c | l.inodestart <= c < |d.blocks| ensures KeptAt(l, e, n, c) {
      assert KeptAt(l, d, j, c);
    }
    forall c | 0 <= c < |d.blocks| ensures Fresh(n, e.blocks, c) {
      assert Fresh(j, d.blocks, c);
    }
  }

  /** Data block b gets the contents x and is not logged. */
  lemma SyncLoose(l: Layout, d: Disk, j: Journal, b: nat, x: Block)
    requires Synced(l, d, j) && l.first <= b < |d.blocks|
    ensures Synced(l, d.(blocks := d.blocks[b := x]), j.(loose := j.loose + {b}))
  {
    var e, n := d.(blocks := d.blocks[b := x]), j.(loose := j.loose + {b});
    forall c | l.inodestart <= c < |d.blocks| ensures KeptAt(l, e, n, c) {
      assert KeptAt(l, d, j, c);
    }
    forall c | 0 <= c < |d.blocks| ensures Fresh(n, e.blocks, c) {
      assert Fresh(j, d.blocks, c);
    }
  }

  /** Inode i is written to its block, which is logged. */
  lemma SyncNodes(l: Layout, d: Disk, j: Journal, i: nat, x: Inode)
    requires Synced(l, d, j) && l.InodeBlock(i) < l.bmapstart
    ensures var m := d.dinodes[i := x];
      Synced(l, d.(dinodes := m), Note(j, l.InodeBlock(i), Nodes(NodesIn(m, i / IPB)))) && l.InodeBlock(i) in j.kept
  {
    assert KeptAt(l, d, j, l.InodeBlock(i));
    var m := d.dinodes[i := x];
    var e, n := d.(dinodes := m), Note(j, l.InodeBlock(i), Nodes(NodesIn(m, i / IPB)));
    forall b | l.inodestart <= b < |d.blocks| ensures KeptAt(l, e, n, b) {
      assert KeptAt(l, d, j, b);
      if b < l.bmapstart && b != l.InodeBlock(i) {
        assert NodesIn(m, b - l.inodestart) == NodesIn(d.dinodes, b - l.inodestart);
      }
    }
    forall b | 0 <= b < |d.blocks| ensures Fresh(n, e.blocks, b) {
      assert Fresh(j, d.blocks, b);
    }
  }

  // --- Calls for bitmap blocks only ---

  /** Number of bitmap blocks of a disk with this many blocks. */
  function BitmapBlocks(size: nat): nat {
    if size == 0 then 0 else (size - 1) / BPB + 1
  }

  function From(lo: nat, n: nat): (r: set<nat>)
    ensures forall b :: b in r <==> lo <= b < lo + n
    ensures |r| == n
  {
    if n == 0 then {} else From(lo, n - 1) + {lo + n - 1}
  }

  /** Between j0 and j only bitmap blocks were logged. */
  ghost predicate OnlyBits(l: Layout, size: nat, j0: Journal, j: Journal) {
    && j.base == j0.base && j.loose == j0.loose && j.saved == j0.saved && j0.logged <= j.logged
    && (forall b :: b in j.logged && b !in j0.logged ==> l.bmapstart <= b < l.bmapstart + BitmapBlocks(size))
    && (j0.room && |j0.logged| + BitmapBlocks(size) < MAXOPBLOCKS ==> j.room)
  }

  lemma BitsBound(l: Layout, size: nat, j0: Journal, j: Journal)
    requires OnlyBits(l, size, j0, j)
    ensures |j.logged| <= |j0.logged| + BitmapBlocks(size)
  {
    var r := From(l.bmapstart, BitmapBlocks(size));
    SubsetSize(j.logged, j0.logged + (r - j0.logged));
    SubsetSize(r - j0.logged, r);
  }

  lemma MoreBits(l: Layout, size: nat, j0: Journal, j: Journal, k: Journal, b: nat)
    requires OnlyBits(l, size, j0, j) && Notes(j, k, l.BitmapBlock(b)) && b < size
    requires k.loose == j.loose && k.saved == j.saved
    ensures OnlyBits(l, size, j0, k)
  {
    BitsBound(l, size, j0, j);
    assert b / BPB <= (size - 1) / BPB;
  }
}
