/**
  The buffer cache (kernel/bio.c) as a state machine shared by any number of processes.

  One step is a critical section under bcache.lock or under a buffer's sleep lock, or a
  transfer between a locked buffer and the disk.  The log's part in it is what log_write,
  install_trans and the end of commit (kernel/log.c) do to its list and to the pins.
  Module BufferRing has the code that keeps the buffers in a doubly linked ring.
 */
module BufferCache {
  import opened Params
  import opened Collections

  type Block = seq<int>
  type Pid = nat
  type Key = (nat, nat)     // device, block number

  /** struct buf without its links; `locked` and `pid` are its sleep lock. */
  datatype Buf = Buf(dev: nat, blockno: nat, valid: bool, refcnt: int, data: Block, locked: bool, pid: Pid) {
    function Key(): Key { (dev, blockno) }
  }

  /** `order` lists the buffers from the head of the ring: most recently used first. */
  datatype Cache = Cache(order: seq<nat>, bufs: seq<Buf>, disk: map<Key, Block>)

  /** What the holder of a buffer's lock has done since it got it. */
  datatype Status =
    | Clean            // nothing, or log_write after its last change
    | Changed          // changed the contents
    | Saved            // bwrite after its last change

  /**
    `listed` is the log's list, and `installed` the part of it that install_trans has
    unpinned.  The rest is not in the source: the last contents given to each block, the
    processes between bget and the sleep lock, those between releasing it and giving up
    their reference, the references held by the log, and the times of last use.
   */
  datatype Book = Book(
    latest: map<Key, Block>, waiting: seq<set<Pid>>, leaving: seq<set<Pid>>, pins: seq<int>,
    status: seq<Status>, listed: set<Key>, installed: set<Key>, stamp: seq<nat>, clock: nat)

  datatype State = State(c: Cache, g: Book)

  datatype Step =
    | Get(p: Pid, key: Key)              // bget under bcache.lock
    | Lock(p: Pid, i: nat)               // acquiresleep returns
    | Fill(p: Pid, i: nat)               // bread reads the block if it is not valid
    | Modify(p: Pid, i: nat, data: Block)
    | Write(p: Pid, i: nat)              // bwrite
    | LogWrite(p: Pid, i: nat)           // log_write, which pins a block that is new in the list
    | Unpin(p: Pid, i: nat)              // bunpin, from install_trans
    | Clear                              // commit empties the list
    | Unlock(p: Pid, i: nat)             // brelse: releasesleep
    | Drop(p: Pid, i: nat)               // brelse: the rest, under bcache.lock

  datatype Outcome = Ok(state: State) | Panic

  // --- bget ---

  /** First position from the head of the ring that caches the block. */
  function FirstMatch(order: seq<nat>, bufs: seq<Buf>, key: Key): (k: nat)
    requires forall k :: 0 <= k < |order| ==> order[k] < |bufs|
    ensures k <= |order|
    ensures k < |order| ==> bufs[order[k]].Key() == key
    ensures forall j :: 0 <= j < k ==> bufs[order[j]].Key() != key
  {
    if order == [] || bufs[order[0]].Key() == key then 0
    else 1 + FirstMatch(order[1..], bufs, key)
  }

  /** Number of entries up to and including the last unused buffer; 0 if none is unused. */
  function LastUnused(order: seq<nat>, bufs: seq<Buf>): (k: nat)
    requires forall k :: 0 <= k < |order| ==> order[k] < |bufs|
    ensures k <= |order|
    ensures k > 0 ==> bufs[order[k - 1]].refcnt == 0
    ensures forall j :: k <= j < |order| ==> bufs[order[j]].refcnt != 0
  {
    if order == [] then 0
    else
      var n := |order| - 1;
      if bufs[order[n]].refcnt == 0 then |order|
      else LastUnused(order[..n], bufs)
  }

  predicate Shape(c: Cache) {
    |c.bufs| == NBUF && forall k :: 0 <= k < |c.order| ==> c.order[k] < NBUF
  }

  /** The buffer bget returns: the cached one, else the last unused one, else none (-1). */
  function Chosen(c: Cache, key: Key): (i: int)
    requires Shape(c)
    ensures -1 <= i < NBUF
  {
    var k := FirstMatch(c.order, c.bufs, key);
    var m := LastUnused(c.order, c.bufs);
    if k < |c.order| then c.order[k] else if m > 0 then c.order[m - 1] else -1
  }

  function Taken(b: Buf, key: Key): Buf {
    if b.Key() == key then b.(refcnt := b.refcnt + 1)
    else b.(dev := key.0, blockno := key.1, valid := false, refcnt := 1)
  }

  /** Move a buffer to the head of the ring. */
  function ToFront(order: seq<nat>, i: nat): (r: seq<nat>) {
    [i] + Without(order, i)
  }

  function Without(order: seq<nat>, i: nat): (r: seq<nat>) {
    if order == [] then []
    else if order[0] == i then Without(order[1..], i)
    else [order[0]] + Without(order[1..], i)
  }

  // --- One step ---

  predicate Holds(c: Cache, p: Pid, i: nat) {
    i < |c.bufs| && c.bufs[i].locked && c.bufs[i].pid == p
  }

  function Update(c: Cache, i: nat, b: Buf): Cache
    requires i < |c.bufs|
  {
    c.(bufs := c.bufs[i := b])
  }

  /**
    What callers do.  They change a block only under its lock, after bread, and pass what
    they change to log_write or bwrite before they release it.  install_trans unpins each
    listed block once, after writing it.  log_write is not called during that, as a commit
    never overlaps an operation (NoPanic in module Log).
   */
  predicate Allowed(s: State, step: Step)
    requires Sized(s)
  {
    match step
    case Get(p, key) => key.0 != 0 && key in s.c.disk && Free(s, p)
    case Lock(p, i) => i < NBUF && p in s.g.waiting[i] && !s.c.bufs[i].locked
    case Fill(p, i) => Holds(s.c, p, i)
    case Modify(p, i, _) => Holds(s.c, p, i) && s.c.bufs[i].valid
    case Write(p, i) => Holds(s.c, p, i) && s.c.bufs[i].valid
    case LogWrite(p, i) => Holds(s.c, p, i) && s.c.bufs[i].valid && s.g.installed == {}
    case Unpin(p, i) => Holds(s.c, p, i) && s.g.status[i] == Saved && s.c.bufs[i].Key() in Awaiting(s.g)
    case Clear => s.g.installed == s.g.listed
    case Unlock(p, i) => Holds(s.c, p, i) && Free(s, p) && s.c.bufs[i].valid && s.g.status[i] != Changed
    case Drop(p, i) => i < NBUF && p in s.g.leaving[i]
  }

  /** Blocks that the log has listed and not installed yet. */
  function Awaiting(g: Book): set<Key> {
    g.listed - g.installed
  }

  /** Process p is not inside bget or brelse. */
  predicate Free(s: State, p: Pid)
    requires Sized(s)
  {
    forall i :: 0 <= i < NBUF ==> p !in s.g.waiting[i] && p !in s.g.leaving[i]
  }

  predicate Sized(s: State) {
    && |s.c.bufs| == |s.g.waiting| == |s.g.leaving| == |s.g.pins| == |s.g.status| == |s.g.stamp| == NBUF
    && Shape(s.c)
  }

  function Do(s: State, step: Step): Outcome
    requires Sized(s) && Allowed(s, step)
  {
    var State(c, g) := s;
    match step
    case Get(p, key) =>
      var i := Chosen(c, key);
      if i < 0 then Panic
      else Ok(State(Update(c, i, Taken(c.bufs[i], key)), g.(waiting := g.waiting[i := g.waiting[i] + {p}])))
    case Lock(p, i) =>
      Ok(State(Update(c, i, c.bufs[i].(locked := true, pid := p)),
               g.(waiting := g.waiting[i := g.waiting[i] - {p}], status := g.status[i := Clean])))
    case Fill(p, i) =>
      var b := c.bufs[i];
      if b.valid then Ok(s)
      else if b.Key() !in c.disk then Panic
      else Ok(s.(c := Update(c, i, b.(data := c.disk[b.Key()], valid := true))))
    case Modify(p, i, data) =>
      var b := c.bufs[i];
      Ok(State(Update(c, i, b.(data := data)),
               g.(latest := g.latest[b.Key() := data], status := g.status[i := Changed])))
    case Write(p, i) =>
      var b := c.bufs[i];
      Ok(State(c.(disk := c.disk[b.Key() := b.data]), g.(status := g.status[i := Saved])))
    case LogWrite(p, i) =>
      var b := c.bufs[i];
      var g' := g.(status := g.status[i := Clean], listed := g.listed + {b.Key()});
      if b.Key() in g.listed then Ok(State(c, g'))
      else Ok(State(Update(c, i, b.(refcnt := b.refcnt + 1)), g'.(pins := g.pins[i := g.pins[i] + 1])))
    case Unpin(p, i) =>
      var b := c.bufs[i];
      Ok(State(Update(c, i, b.(refcnt := b.refcnt - 1)),
               g.(pins := g.pins[i := g.pins[i] - 1], installed := g.installed + {b.Key()})))
    case Clear => Ok(s.(g := g.(listed := {}, installed := {})))
    case Unlock(p, i) =>
      Ok(State(Update(c, i, c.bufs[i].(locked := false, pid := 0)),
               g.(leaving := g.leaving[i := g.leaving[i] + {p}], status := g.status[i := Clean])))
    case Drop(p, i) =>
      var g' := g.(leaving := g.leaving[i := g.leaving[i] - {p}]);
      var c' := Update(c, i, c.bufs[i].(refcnt := c.bufs[i].refcnt - 1));
      if c'.bufs[i].refcnt != 0 then Ok(State(c', g'))
      else Ok(State(c'.(order := ToFront(c.order, i)), g'.(stamp := g.stamp[i := g.clock], clock := g.clock + 1)))
  }

  // --- The invariant ---

  /** One buffer for each block of a real device. */
  ghost predicate Unique(c: Cache) {
    forall i, j :: 0 <= i < j < |c.bufs| && c.bufs[i].dev != 0 ==> c.bufs[i].Key() != c.bufs[j].Key()
  }

  ghost predicate Permutation(order: seq<nat>) {
    && |order| == NBUF
    && (forall k :: 0 <= k < |order| ==> order[k] < NBUF)
    && Distinct(order)
    && (forall i :: 0 <= i < NBUF ==> i in order)
  }

  /** References: processes inside the cache, the lock holder, and the log's pins. */
  ghost predicate Counted(s: State, i: nat)
    requires Sized(s) && i < NBUF
  {
    && s.c.bufs[i].refcnt ==
         |s.g.waiting[i]| + |s.g.leaving[i]| + (if s.c.bufs[i].locked then 1 else 0) + s.g.pins[i]
    && (s.c.bufs[i].refcnt > 0 || s.c.bufs[i].valid ==> s.c.bufs[i].dev != 0 && s.c.bufs[i].Key() in s.c.disk)
    && (s.g.pins[i] > 0 ==> s.c.bufs[i].valid)
  }

  /** A listed block is pinned once until it is installed, and no other block is pinned. */
  ghost predicate PinnedOnce(s: State, i: nat)
    requires Sized(s) && i < NBUF
  {
    s.g.pins[i] == if s.c.bufs[i].Key() in Awaiting(s.g) then 1 else 0
  }

  ghost predicate StatusOk(s: State, i: nat)
    requires Sized(s) && i < NBUF
  {
    var b := s.c.bufs[i];
    && (s.g.status[i] != Clean ==> b.locked && b.valid)
    && (s.g.status[i] == Saved ==> b.Key() in s.c.disk && s.c.disk[b.Key()] == b.data)
  }

  ghost predicate Pinned(s: State)
    requires Sized(s)
  {
    && s.g.installed <= s.g.listed
    && (forall key :: key in Awaiting(s.g) ==> key.0 != 0 && key in s.c.disk && Cached(s.c, key))
    && (forall i {:trigger PinnedOnce(s, i)} :: 0 <= i < NBUF ==> PinnedOnce(s, i))
    && (forall i {:trigger StatusOk(s, i)} :: 0 <= i < NBUF ==> StatusOk(s, i))
  }

  ghost predicate Cached(c: Cache, key: Key) {
    exists i :: 0 <= i < |c.bufs| && c.bufs[i].Key() == key
  }

  /** Buffer i keeps newer contents of block `key` than the disk does. */
  ghost predicate Keeps(s: State, i: nat, key: Key)
    requires Sized(s) && i < NBUF
  {
    s.c.bufs[i].Key() == key && s.c.bufs[i].valid && (s.g.status[i] == Changed || s.g.pins[i] > 0)
  }

  ghost predicate Transparent(s: State)
    requires Sized(s)
  {
    && s.g.latest.Keys == s.c.disk.Keys
    && (forall i :: 0 <= i < NBUF && s.c.bufs[i].valid && s.c.bufs[i].Key() in s.c.disk ==>
          s.c.bufs[i].data == s.g.latest[s.c.bufs[i].Key()])
    && (forall key :: key in s.c.disk && s.c.disk[key] != s.g.latest[key] ==>
          exists i :: 0 <= i < NBUF && Keeps(s, i, key))
  }

  /** The ring is sorted by time of last use. */
  ghost predicate Sorted(s: State)
    requires Sized(s)
  {
    SortedBy(s.c.order, s.g.stamp, s.g.clock)
  }

  ghost predicate SortedBy(order: seq<nat>, stamp: seq<nat>, clock: nat)
    requires |stamp| == NBUF && forall k :: 0 <= k < |order| ==> order[k] < NBUF
  {
    && (forall j, k :: 0 <= j < k < |order| ==> stamp[order[j]] > stamp[order[k]])
    && (forall i :: 0 <= i < NBUF ==> stamp[i] < clock)
  }

  ghost predicate Inv(s: State) {
    && Sized(s)
    && Unique(s.c)
    && Permutation(s.c.order)
    && (forall i :: 0 <= i < NBUF ==> Counted(s, i))
    && Pinned(s)
    && Transparent(s)
    && Sorted(s)
  }

  // --- Every step keeps it ---

  lemma {:induction false} WithoutOnce(order: seq<nat>, k: nat)
    requires k < |order| && Distinct(order)
    ensures Without(order, order[k]) == order[..k] + order[k + 1..]
  {
    if k == 0 {
      WithoutNone(order[1..], order[0]);
    } else {
      WithoutOnce(order[1..], k - 1);
      assert order[..k] == [order[0]] + order[1..][..k - 1];
    }
  }

  lemma {:induction false} WithoutNone(order: seq<nat>, i: nat)
    requires i !in order
    ensures Without(order, i) == order
  {
    if order != [] { WithoutNone(order[1..], i); }
  }

  lemma ToFrontIs(order: seq<nat>, i: nat) returns (k: nat)
    requires Permutation(order) && i < NBUF
    ensures k < |order| && order[k] == i && ToFront(order, i) == [i] + order[..k] + order[k + 1..]
    ensures Permutation(ToFront(order, i))
  {
    assert i in order;
    k :| 0 <= k < |order| && order[k] == i;
    WithoutOnce(order, k);
    var r := [i] + order[..k] + order[k + 1..];
    assert ToFront(order, i) == r;
    FrontPermutes(order, i, k, r);
  }

  lemma FrontPermutes(order: seq<nat>, i: nat, k: nat, r: seq<nat>)
    requires Permutation(order) && k < |order| && order[k] == i && r == [i] + order[..k] + order[k + 1..]
    ensures Permutation(r)
  {
    forall x | 0 <= x < |r| ensures r[x] == if x == 0 then i else if x <= k then order[x - 1] else order[x] {}
    forall x | 0 <= x < NBUF ensures x in r {
      assert x in order;
      var j :| 0 <= j < |order| && order[j] == x;
      assert j < k ==> r[j + 1] == x;
      assert j > k ==> r[j] == x;
    }
  }

  lemma ChosenFresh(c: Cache, key: Key)
    requires Shape(c) && Permutation(c.order) && Chosen(c, key) >= 0
    ensures var i := Chosen(c, key);
      c.bufs[i].Key() == key || (c.bufs[i].refcnt == 0 && forall j :: 0 <= j < NBUF ==> c.bufs[j].Key() != key)
  {
    if FirstMatch(c.order, c.bufs, key) == |c.order| {
      forall j | 0 <= j < NBUF ensures c.bufs[j].Key() != key {
        assert j in c.order;
      }
    }
  }

  /** An unused buffer never holds contents that the disk lacks, so it can be recycled. */
  lemma UnusedIsClean(s: State, i: nat)
    requires Inv(s) && i < NBUF && s.c.bufs[i].refcnt == 0
    ensures !s.c.bufs[i].locked && s.g.pins[i] == 0 && s.g.waiting[i] == {} == s.g.leaving[i]
    ensures forall key :: !Keeps(s, i, key)
  {
    assert Counted(s, i) && PinnedOnce(s, i) && StatusOk(s, i);
  }

  /** bget takes no buffer away from a block that the log waits for. */
  lemma GetPinned(s: State, step: Step)
    requires Inv(s) && step.Get? && Allowed(s, step) && Do(s, step).Ok?
    ensures Pinned(Do(s, step).state)
  {
    var i, t := Chosen(s.c, step.key), Do(s, step).state;
    ChosenFresh(s.c, step.key);
    if s.c.bufs[i].refcnt == 0 { UnusedIsClean(s, i); }
    assert PinnedOnce(s, i) && StatusOk(s, i);
    forall key | key in Awaiting(t.g) ensures Cached(t.c, key) {
      var j :| 0 <= j < NBUF && s.c.bufs[j].Key() == key;
      assert t.c.bufs[j].Key() == key;
    }
    forall j | 0 <= j < NBUF ensures PinnedOnce(t, j) && StatusOk(t, j) {
      assert PinnedOnce(s, j) && StatusOk(s, j);
    }
  }

  lemma GetTransparent(s: State, step: Step)
    requires Inv(s) && step.Get? && Allowed(s, step) && Do(s, step).Ok?
    ensures Transparent(Do(s, step).state)
  {
    var i := Chosen(s.c, step.key);
    var t := Do(s, step).state;
    assert Counted(s, i);
    if s.c.bufs[i].refcnt == 0 { UnusedIsClean(s, i); }
    forall key | key in t.c.disk && t.c.disk[key] != t.g.latest[key]
      ensures exists j :: 0 <= j < NBUF && Keeps(t, j, key)
    {
      var j :| 0 <= j < NBUF && Keeps(s, j, key);
      assert Keeps(t, j, key);
    }
  }

  lemma GetInv(s: State, step: Step)
    requires Inv(s) && step.Get? && Allowed(s, step) && Do(s, step).Ok?
    ensures Inv(Do(s, step).state)
  {
    var i := Chosen(s.c, step.key);
    var t := Do(s, step).state;
    ChosenFresh(s.c, step.key);
    GetPinned(s, step);
    GetTransparent(s, step);
    assert Counted(s, i);
    forall j | 0 <= j < NBUF ensures Counted(t, j) {
      assert Counted(s, j);
    }
  }

  /** A step that changes buffer i but not which block it caches. */
  ghost predicate SameBlocks(s: State, t: State, i: nat) {
    && Sized(s) && Sized(t) && i < NBUF
    && (forall j :: 0 <= j < NBUF && j != i ==> t.c.bufs[j] == s.c.bufs[j])
    && (forall j :: 0 <= j < NBUF && j != i ==>
          t.g.waiting[j] == s.g.waiting[j] && t.g.leaving[j] == s.g.leaving[j] && t.g.pins[j] == s.g.pins[j] &&
          t.g.status[j] == s.g.status[j])
    && t.c.bufs[i].Key() == s.c.bufs[i].Key()
    && t.c.disk.Keys == s.c.disk.Keys == t.g.latest.Keys == s.g.latest.Keys
    && (forall key :: key in s.c.disk && key != s.c.bufs[i].Key() ==>
          t.c.disk[key] == s.c.disk[key] && t.g.latest[key] == s.g.latest[key])
    && (forall key :: key != s.c.bufs[i].Key() ==> (key in Awaiting(t.g) <==> key in Awaiting(s.g)))
    && t.g.installed <= t.g.listed
  }

  lemma SameBlocksPinned(s: State, t: State, i: nat)
    requires Inv(s) && SameBlocks(s, t, i) && PinnedOnce(t, i) && StatusOk(t, i)
    requires s.c.bufs[i].dev != 0 && s.c.bufs[i].Key() in s.c.disk
    ensures Pinned(t)
  {
    var own := s.c.bufs[i].Key();
    forall key | key in Awaiting(t.g) ensures key.0 != 0 && key in t.c.disk && Cached(t.c, key) {
      if key == own {
        assert t.c.bufs[i].Key() == key;
      } else {
        var j :| 0 <= j < NBUF && s.c.bufs[j].Key() == key;
        assert t.c.bufs[j].Key() == key;
      }
    }
    forall j | 0 <= j < NBUF ensures PinnedOnce(t, j) && StatusOk(t, j) {
      if j != i {
        assert PinnedOnce(s, j) && StatusOk(s, j) && s.c.bufs[j].Key() != own;
      }
    }
  }

  lemma SameBlocksInv(s: State, t: State, i: nat)
    requires Inv(s) && SameBlocks(s, t, i) && Counted(t, i)
    requires Permutation(t.c.order) && Sorted(t) && Pinned(t)
    requires var key := t.c.bufs[i].Key(); key in t.c.disk ==>
      && (t.c.bufs[i].valid ==> t.c.bufs[i].data == t.g.latest[key])
      && (t.c.disk[key] != t.g.latest[key] ==> Keeps(t, i, key))
    ensures Inv(t)
  {
    forall j | 0 <= j < NBUF ensures Counted(t, j) {
      assert Counted(s, j);
    }
    var own := t.c.bufs[i].Key();
    assert s.c.bufs[i].dev != 0 ==> forall j :: 0 <= j < NBUF && j != i ==> s.c.bufs[j].Key() != own;
    forall j | 0 <= j < NBUF && t.c.bufs[j].valid && t.c.bufs[j].Key() in t.c.disk
      ensures t.c.bufs[j].data == t.g.latest[t.c.bufs[j].Key()]
    {
      assert Counted(s, j);
    }
    forall key | key in t.c.disk && t.c.disk[key] != t.g.latest[key]
      ensures exists j :: 0 <= j < NBUF && Keeps(t, j, key)
    {
      if key == own {
        assert Keeps(t, i, key);
      } else {
        var j :| 0 <= j < NBUF && Keeps(s, j, key);
        assert Keeps(t, j, key);
      }
    }
  }

  /** Only the buffer of a block can keep newer contents of it. */
  lemma OnlyKeeper(s: State, i: nat)
    requires Inv(s) && i < NBUF && s.c.bufs[i].dev != 0 && s.c.bufs[i].Key() in s.c.disk
    ensures var b := s.c.bufs[i];
      && (b.valid ==> b.data == s.g.latest[b.Key()])
      && (s.c.disk[b.Key()] != s.g.latest[b.Key()] ==> Keeps(s, i, b.Key()))
  {
    var key := s.c.bufs[i].Key();
    if s.c.disk[key] != s.g.latest[key] {
      var j :| 0 <= j < NBUF && Keeps(s, j, key);
      assert j == i;
    }
  }

  /** What holds of buffer i before and after a step on it. */
  ghost predicate Fine(s: State, i: nat)
    requires Sized(s) && i < NBUF
  {
    && Counted(s, i) && PinnedOnce(s, i) && StatusOk(s, i)
    && var b := s.c.bufs[i];
       b.dev != 0 && b.Key() in s.c.disk && b.Key() in s.g.latest
       && (b.valid ==> b.data == s.g.latest[b.Key()])
       && (s.c.disk[b.Key()] != s.g.latest[b.Key()] ==> Keeps(s, i, b.Key()))
  }

  /** A step on a buffer whose lock is held, or is being taken. */
  predicate OnLocked(step: Step) {
    !step.Get? && !step.Drop? && !step.Clear?
  }

  ghost predicate StaysFine(s: State, t: State, i: nat) {
    && SameBlocks(s, t, i) && Fine(t, i)
    && t.c.order == s.c.order && t.g.stamp == s.g.stamp && t.g.clock == s.g.clock
  }

  ghost predicate Ready(s: State, step: Step)
    requires OnLocked(step)
  {
    && Sized(s) && Allowed(s, step) && Do(s, step).Ok? && step.i < NBUF && Fine(s, step.i)
    && s.c.disk.Keys == s.g.latest.Keys && s.g.installed <= s.g.listed
  }

  lemma LogStepFine(s: State, step: Step)
    requires OnLocked(step) && Ready(s, step) && (step.LogWrite? || step.Unpin?)
    ensures StaysFine(s, Do(s, step).state, step.i)
  {
  }

  lemma DataStepFine(s: State, step: Step)
    requires OnLocked(step) && Ready(s, step) && (step.Fill? || step.Modify? || step.Write?)
    ensures StaysFine(s, Do(s, step).state, step.i)
  {
  }

  lemma LockStepFine(s: State, step: Step)
    requires OnLocked(step) && Ready(s, step) && (step.Lock? || step.Unlock?)
    ensures StaysFine(s, Do(s, step).state, step.i)
  {
  }

  lemma LockedStepInv(s: State, step: Step)
    requires Inv(s) && Allowed(s, step) && Do(s, step).Ok? && OnLocked(step)
    ensures Inv(Do(s, step).state)
  {
    var i := step.i;
    var t := Do(s, step).state;
    assert Counted(s, i) && PinnedOnce(s, i) && StatusOk(s, i);
    OnlyKeeper(s, i);
    if step.LogWrite? || step.Unpin? {
      LogStepFine(s, step);
    } else if step.Lock? || step.Unlock? {
      LockStepFine(s, step);
    } else {
      DataStepFine(s, step);
    }
    SameBlocksPinned(s, t, i);
    SameBlocksInv(s, t, i);
  }

  lemma FrontSorted(order: seq<nat>, stamp: seq<nat>, clock: nat, i: nat)
    requires Permutation(order) && |stamp| == NBUF && SortedBy(order, stamp, clock) && i < NBUF
    ensures Permutation(ToFront(order, i)) && SortedBy(ToFront(order, i), stamp[i := clock], clock + 1)
  {
    var k := ToFrontIs(order, i);
    var r, st := [i] + order[..k] + order[k + 1..], stamp[i := clock];
    forall x, y | 0 <= x < y < |r| ensures st[r[x]] > st[r[y]] {
      assert x > 0 ==> r[x] == order[if x <= k then x - 1 else x];
      assert r[y] == order[if y <= k then y - 1 else y];
    }
  }

  lemma DropFine(s: State, step: Step)
    requires Sized(s) && Allowed(s, step) && step.Drop? && Fine(s, step.i)
    requires s.c.disk.Keys == s.g.latest.Keys && s.g.installed <= s.g.listed && Permutation(s.c.order) && Sorted(s)
    ensures Do(s, step).Ok?
    ensures var t := Do(s, step).state;
      SameBlocks(s, t, step.i) && Fine(t, step.i) && Permutation(t.c.order) && Sorted(t)
  {
    FrontSorted(s.c.order, s.g.stamp, s.g.clock, step.i);
  }

  lemma DropInv(s: State, step: Step)
    requires Inv(s) && Allowed(s, step) && step.Drop?
    ensures Do(s, step).Ok? && Inv(Do(s, step).state)
  {
    var i := step.i;
    assert Counted(s, i) && PinnedOnce(s, i) && StatusOk(s, i);
    OnlyKeeper(s, i);
    DropFine(s, step);
    SameBlocksPinned(s, Do(s, step).state, i);
    SameBlocksInv(s, Do(s, step).state, i);
  }

  /** The list is emptied when nothing in it is pinned any more. */
  lemma ClearInv(s: State)
    requires Inv(s) && Allowed(s, Clear)
    ensures Do(s, Clear).Ok? && Inv(Do(s, Clear).state)
  {
    var t := Do(s, Clear).state;
    assert Awaiting(t.g) == Awaiting(s.g) == {};
    forall j | 0 <= j < NBUF ensures Counted(t, j) && PinnedOnce(t, j) && StatusOk(t, j) {
      assert Counted(s, j) && PinnedOnce(s, j) && StatusOk(s, j);
    }
    forall key | key in t.c.disk && t.c.disk[key] != t.g.latest[key]
      ensures exists j :: 0 <= j < NBUF && Keeps(t, j, key)
    {
      var j :| 0 <= j < NBUF && Keeps(s, j, key);
      assert Keeps(t, j, key);
    }
  }

  lemma StepInv(s: State, step: Step)
    requires Inv(s) && Allowed(s, step) && Do(s, step).Ok?
    ensures Inv(Do(s, step).state)
  {
    match step
    case Get(_, _) => GetInv(s, step);
    case Drop(_, _) => DropInv(s, step);
    case Clear => ClearInv(s);
    case _ => LockedStepInv(s, step);
  }

  // --- Whole runs ---

  datatype Run = Boot(disk: map<Key, Block>) | Then(before: Run, step: Step)

  /** The cache as binit leaves it: every buffer at device 0, block 0, in reverse order. */
  function Init(disk: map<Key, Block>): State {
    State(Cache(seq(NBUF, i requires 0 <= i < NBUF => NBUF - 1 - i),
                seq(NBUF, _ => Buf(0, 0, false, 0, [], false, 0)), disk),
          Book(disk, seq(NBUF, _ => {}), seq(NBUF, _ => {}), seq(NBUF, _ => 0), seq(NBUF, _ => Clean), {}, {},
               seq(NBUF, i => i), NBUF))
  }

  ghost predicate IsRun(r: Run)
    decreases r, 0
  {
    match r
    case Boot(_) => true
    case Then(q, step) => IsRun(q) && Sized(Final(q)) && Allowed(Final(q), step) && Do(Final(q), step).Ok?
  }

  ghost function Final(r: Run): State
    requires IsRun(r)
    decreases r, 1
  {
    match r
    case Boot(disk) => Init(disk)
    case Then(q, step) => Do(Final(q), step).state
  }

  lemma InitInv(disk: map<Key, Block>)
    ensures Inv(Init(disk))
  {
    var order := Init(disk).c.order;
    forall i | 0 <= i < NBUF ensures i in order {
      assert order[NBUF - 1 - i] == i;
    }
  }

  lemma {:induction false} RunInv(r: Run)
    requires IsRun(r)
    ensures Inv(Final(r))
  {
    match r
    case Boot(disk) => InitInv(disk);
    case Then(q, step) => RunInv(q); StepInv(Final(q), step);
  }

  /** The last contents given to each block by any process, wherever they are kept. */
  ghost function Written(r: Run): map<Key, Block>
    requires IsRun(r)
  {
    match r
    case Boot(disk) => disk
    case Then(q, step) =>
      if step.Modify? then Written(q)[Final(q).c.bufs[step.i].Key() := step.data] else Written(q)
  }

  lemma StepLatest(s: State, step: Step)
    requires Sized(s) && Allowed(s, step) && Do(s, step).Ok?
    ensures Do(s, step).state.g.latest ==
      if step.Modify? then s.g.latest[s.c.bufs[step.i].Key() := step.data] else s.g.latest
  {
  }

  lemma {:induction false} WrittenIsLatest(r: Run)
    requires IsRun(r)
    ensures Written(r) == Final(r).g.latest
  {
    if r.Then? {
      WrittenIsLatest(r.before);
      StepLatest(Final(r.before), r.step);
    }
  }

  /** Buffer i has a reference and contents d of block `key`, and one pin if the log waits for it. */
  predicate Has(s: State, i: nat, key: Key, d: Block)
    requires Sized(s) && i < NBUF
  {
    var b := s.c.bufs[i];
    b.Key() == key && b.refcnt > 0 && b.valid && b.data == d && (key in Awaiting(s.g) ==> s.g.pins[i] == 1)
  }

  ghost predicate Kept(s: State, key: Key, d: Block) {
    Sized(s) && exists i :: 0 <= i < NBUF && Has(s, i, key, d)
  }

  /** A block that is newer than the disk, or that the log waits for, is in a buffer that stays. */
  lemma KeptBuffer(s: State, key: Key)
    requires Inv(s) && key in s.c.disk && (s.c.disk[key] != s.g.latest[key] || key in Awaiting(s.g))
    ensures Kept(s, key, s.g.latest[key])
  {
    if key in Awaiting(s.g) {
      var i :| 0 <= i < NBUF && s.c.bufs[i].Key() == key;
      assert PinnedOnce(s, i) && Counted(s, i);
      assert Has(s, i, key, s.g.latest[key]);
    } else {
      var i :| 0 <= i < NBUF && Keeps(s, i, key);
      assert Counted(s, i) && StatusOk(s, i) && PinnedOnce(s, i);
      assert Has(s, i, key, s.g.latest[key]);
    }
  }

  /** Buffer i holds what its block holds. */
  predicate Reads(c: Cache, i: nat, last: map<Key, Block>) {
    i < |c.bufs| && c.bufs[i].Key() in last && c.bufs[i].data == last[c.bufs[i].Key()]
  }

  lemma FillReads(s: State, step: Step)
    requires Inv(s) && step.Fill? && Allowed(s, step) && Do(s, step).Ok?
    ensures Reads(Do(s, step).state.c, step.i, s.g.latest)
  {
    var i := step.i;
    assert Counted(s, i) && PinnedOnce(s, i);
    OnlyKeeper(s, i);
  }

  /**
    Cache transparency.  In every run bread returns the last contents written to the
    block, whether it was cached or was read back from the disk.  A block whose last
    contents are not on the disk, and every block that the log has listed and not yet
    installed, is in a buffer with these contents and a reference, so that bget cannot
    recycle it; for a listed block the log holds one pin, however often it was passed to
    log_write.  Each block of a real device has one buffer.
   */
  lemma CacheTransparency(r: Run)
    requires IsRun(r)
    ensures var s, last := Final(r), Written(r);
      && last.Keys == s.c.disk.Keys
      && (r.Then? && r.step.Fill? ==> Reads(s.c, r.step.i, last))
      && (forall key :: key in s.c.disk && (s.c.disk[key] != last[key] || key in Awaiting(s.g)) ==>
            Kept(s, key, last[key]))
      && Awaiting(s.g) <= s.c.disk.Keys
      && Unique(s.c)
      && Permutation(s.c.order)
  {
    RunInv(r);
    WrittenIsLatest(r);
    var s := Final(r);
    if r.Then? && r.step.Fill? {
      RunInv(r.before);
      FillReads(Final(r.before), r.step);
      StepLatest(Final(r.before), r.step);
    }
    forall key | key in s.c.disk && (s.c.disk[key] != s.g.latest[key] || key in Awaiting(s.g))
      ensures Kept(s, key, s.g.latest[key])
    {
      KeptBuffer(s, key);
    }
  }

  /** A buffer in use goes on caching the same block, so bread returns what was asked for. */
  lemma ReferencedStays(s: State, step: Step, i: nat)
    requires Inv(s) && Allowed(s, step) && Do(s, step).Ok? && i < NBUF && s.c.bufs[i].refcnt > 0
    ensures Do(s, step).state.c.bufs[i].Key() == s.c.bufs[i].Key()
  {
    if step.Get? { ChosenFresh(s.c, step.key); }
  }

  // --- A process gets what it asked for ---

  /**
    From c to d buffer i has become a buffer of block `key`, with one more reference.  It
    keeps its contents only if they are the block's.  No other buffer has changed.
   */
  ghost predicate Obtained(c: Cache, d: Cache, i: nat, key: Key) {
    && i < |c.bufs| == |d.bufs| && d.order == c.order && d.disk == c.disk
    && (forall j :: 0 <= j < |c.bufs| && j != i ==> d.bufs[j] == c.bufs[j])
    && var b, e := c.bufs[i], d.bufs[i];
       && e.Key() == key && e.refcnt == (if b.Key() == key then b.refcnt + 1 else 1)
       && (e.valid <==> b.valid && b.Key() == key) && e.data == b.data && e.locked == b.locked && e.pid == b.pid
  }

  lemma GetObtains(s: State, p: Pid, key: Key)
    requires Inv(s) && Allowed(s, Get(p, key)) && Do(s, Get(p, key)).Ok?
    ensures var i, t := Chosen(s.c, key), Do(s, Get(p, key)).state;
      && i >= 0 && Obtained(s.c, t.c, i, key) && |t.g.waiting| == NBUF
      && forall j :: 0 <= j < NBUF ==> (p in t.g.waiting[j] <==> j == i)
  {
  }

  /** The block that process p asked for when bget gave it buffer i, until p releases the buffer. */
  ghost function Asked(r: Run, p: Pid, i: nat): Option<Key>
    requires IsRun(r)
  {
    match r
    case Boot(_) => None
    case Then(q, step) =>
      match step
      case Get(x, key) => if x == p && i == Chosen(Final(q).c, key) then Some(key) else Asked(q, p, i)
      case Unlock(x, j) => if x == p && j == i then None else Asked(q, p, i)
      case _ => Asked(q, p, i)
  }

  /** Process p waits for the lock of buffer i, or has it. */
  predicate Uses(s: State, p: Pid, i: nat)
    requires Sized(s)
  {
    i < NBUF && (p in s.g.waiting[i] || Holds(s.c, p, i))
  }

  /** A step of the run from s to t, seen from process p and buffer i. */
  ghost predicate Follows(s: State, step: Step, t: State, p: Pid, i: nat)
    requires Sized(s)
  {
    && Sized(t) && i < NBUF
    && if step.Get? && step.p == p && i == Chosen(s.c, step.key) then Uses(t, p, i) && t.c.bufs[i].Key() == step.key
       else if step == Unlock(p, i) then !Uses(t, p, i)
       else (Uses(t, p, i) <==> Uses(s, p, i)) && (Uses(s, p, i) ==> t.c.bufs[i].Key() == s.c.bufs[i].Key())
  }

  lemma GetFollows(s: State, step: Step, p: Pid, i: nat)
    requires Inv(s) && step.Get? && Allowed(s, step) && Do(s, step).Ok? && i < NBUF && Sized(Do(s, step).state)
    requires Uses(s, p, i) ==> s.c.bufs[i].refcnt > 0
    ensures Follows(s, step, Do(s, step).state, p, i)
  {
    GetObtains(s, step.p, step.key);
    if Uses(s, p, i) { ReferencedStays(s, step, i); }
  }

  lemma OtherFollows(s: State, step: Step, p: Pid, i: nat)
    requires Sized(s) && !step.Get? && Allowed(s, step) && Do(s, step).Ok? && i < NBUF && Sized(Do(s, step).state)
    ensures Follows(s, step, Do(s, step).state, p, i)
  {
  }

  lemma StepFollows(s: State, step: Step, p: Pid, i: nat)
    requires Inv(s) && Allowed(s, step) && Do(s, step).Ok? && i < NBUF
    ensures Follows(s, step, Do(s, step).state, p, i)
  {
    StepInv(s, step);
    if step.Get? {
      assert Counted(s, i) && PinnedOnce(s, i);
      GetFollows(s, step, p, i);
    } else {
      OtherFollows(s, step, p, i);
    }
  }

  /** A process uses just the buffers of blocks that it asked for, and they are buffers of these blocks. */
  lemma {:induction false} UsesAsked(r: Run, p: Pid, i: nat)
    requires IsRun(r) && i < NBUF
    ensures Inv(Final(r)) && (Uses(Final(r), p, i) <==> Asked(r, p, i).Some?)
    ensures Asked(r, p, i).Some? ==> Final(r).c.bufs[i].Key() == Asked(r, p, i).value
  {
    RunInv(r);
    if r.Then? {
      UsesAsked(r.before, p, i);
      StepFollows(Final(r.before), r.step, p, i);
    }
  }

  /**
    bread() in every run: from the call of bget for block `key` to the release, the buffer is
    that block's; once it is filled, and whenever its holder looks, it has the last contents
    written to the block by anyone.
   */
  lemma BreadReturns(r: Run, p: Pid, i: nat)
    requires IsRun(r) && i < NBUF && Holds(Final(r).c, p, i)
    ensures Asked(r, p, i).Some?
    ensures var key, b := Asked(r, p, i).value, Final(r).c.bufs[i];
      b.Key() == key && key in Written(r) && (b.valid ==> b.data == Written(r)[key])
    ensures r.Then? && r.step == Fill(p, i) ==> Final(r).c.bufs[i].valid
  {
    UsesAsked(r, p, i);
    WrittenIsLatest(r);
    assert Counted(Final(r), i) && PinnedOnce(Final(r), i);
  }

  /** A call of bget() that does not panic gives its process a buffer of the block. */
  lemma GetAnswers(r: Run, p: Pid, key: Key) returns (i: nat)
    requires IsRun(r) && r.Then? && r.step == Get(p, key)
    ensures i < NBUF && Asked(r, p, i) == Some(key) && Inv(Final(r))
    ensures p in Final(r).g.waiting[i] && Final(r).c.bufs[i].Key() == key
  {
    RunInv(r.before);
    RunInv(r);
    GetObtains(Final(r.before), p, key);
    i := Chosen(Final(r.before).c, key);
  }

  /** bget takes the cached buffer, or else the least recently used of the unused ones. */
  lemma GetChoosesLru(s: State, key: Key)
    requires Inv(s) && key.0 != 0
    ensures var i := Chosen(s.c, key);
      && (i >= 0 && s.c.bufs[i].Key() != key ==>
            s.c.bufs[i].refcnt == 0 &&
            forall j :: 0 <= j < NBUF && s.c.bufs[j].refcnt == 0 ==> s.g.stamp[i] <= s.g.stamp[j])
      && (i < 0 <==> forall j :: 0 <= j < NBUF ==> s.c.bufs[j].Key() != key && s.c.bufs[j].refcnt != 0)
  {
    var order := s.c.order;
    var i := Chosen(s.c, key);
    var m := LastUnused(order, s.c.bufs);
    if i >= 0 { ChosenFresh(s.c, key); }
    forall j | 0 <= j < NBUF
      ensures i < 0 ==> s.c.bufs[j].Key() != key && s.c.bufs[j].refcnt != 0
      ensures i >= 0 && s.c.bufs[i].Key() != key && s.c.bufs[j].refcnt == 0 ==> s.g.stamp[i] <= s.g.stamp[j]
    {
      assert j in order;
      var k :| 0 <= k < |order| && order[k] == j;
    }
  }
}
