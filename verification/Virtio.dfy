/**
  The virtqueue of kernel/virtio_disk.c: descriptors, chains of three of them, the ring of
  heads for the device and the ring of heads it has finished (sections 2.6 and 5.2 of
  VirtIO 1.1).

  The lock is held except where a request sleeps, so the driver runs a sequence of Start and
  Finish, the two stretches of virtio_disk_rw(), and of Intr, virtio_disk_intr().  The device
  does not take the lock: its own steps, Fetch and Complete, come between the calls and
  between the turns of the loop of Intr.  A buffer is a number; 0 is the null pointer.
 */
module Virtio {
  import opened Collections
  import opened Params

  const NUM: nat := 8
  const WRAP: nat := 0x1_0000        // indices have 16 bits

  /** What a descriptor points to: a command header, the data of a buffer, or a status byte. */
  datatype Addr = Null | Header(h: nat) | Data(b: nat) | Status(h: nat)

  /** `write` says that the device writes there. */
  datatype Desc = Desc(addr: Addr, len: nat, more: bool, write: bool, next: nat)

  /** struct virtio_blk_req: 0 reads the disk, 1 writes it. */
  datatype Op = Op(kind: nat, reserved: nat, sector: nat)

  const HEADER: nat := 16           // sizeof(struct virtio_blk_req)
  const UINT: nat := 0x1_0000_0000

  datatype Info = Info(b: nat, status: nat)

  /** Where a request is: in the avail ring, with the device, in the used ring, acknowledged. */
  datatype Stage = Posted | Taken | Done | Acked

  /** A request: its second and third descriptors, and what the caller asked for. */
  datatype Chain = Chain(i1: nat, i2: nat, b: nat, write: bool, sector: nat, stage: Stage)

  const NODESC := Desc(Null, 0, false, false, 0)

  /** The first sector of a block, in the 32 bits in which the source computes it. */
  function SectorOf(blockno: nat): nat {
    blockno * (BSIZE / 512) % UINT
  }

  /** Block numbers below 2 to the 31 have sectors of their own, two by two; others do not. */
  lemma SectorIs(blockno: nat)
    requires blockno < UINT
    ensures SectorOf(blockno) == 2 * blockno <==> blockno < UINT / 2
    ensures blockno >= UINT / 2 ==> SectorOf(blockno) == SectorOf(blockno - UINT / 2)
  {
  }

  /** The three descriptors of the chain at head h. */
  ghost predicate InChain(h: nat, c: Chain, i: nat) {
    i == h || i == c.i1 || i == c.i2
  }

  ghost predicate Linked(desc: seq<Desc>, h: nat, c: Chain) {
    && |desc| == NUM && h < NUM && c.i1 < NUM && c.i2 < NUM && h != c.i1 && h != c.i2 && c.i1 != c.i2
    && desc[h].more && desc[h].next == c.i1 && desc[c.i1].more && desc[c.i1].next == c.i2 && !desc[c.i2].more
    && desc[h].addr == Header(h) && desc[h].len == HEADER && !desc[h].write
    && desc[c.i1].addr == Data(c.b) && desc[c.i1].len == BSIZE && desc[c.i1].write == !c.write
    && desc[c.i2].addr == Status(h) && desc[c.i2].len == 1 && desc[c.i2].write
  }

  /** The header of the request at head h says what was asked for. */
  predicate Heads(ops: seq<Op>, h: nat, c: Chain) {
    h < |ops| && ops[h] == OpOf(c.write, c.sector)
  }

  function OpOf(write: bool, sector: nat): Op {
    Op(if write then 1 else 0, 0, sector)
  }

  ghost predicate Headed(ops: seq<Op>, chains: map<nat, Chain>) {
    |ops| == NUM && forall h {:trigger Heads(ops, h, chains[h])} :: h in chains ==> Heads(ops, h, chains[h])
  }

  lemma HeadedSet(ops: seq<Op>, chains: map<nat, Chain>, h: nat, c: Chain, op: Op)
    requires Headed(ops, chains) && h < NUM && op == OpOf(c.write, c.sector)
    ensures Headed(ops[h := op], chains[h := c])
  {
    var all := chains[h := c];
    forall g | g in all ensures Heads(ops[h := op], g, all[g]) {
      if g != h { assert Heads(ops, g, chains[g]); }
    }
  }

  lemma HeadedStage(ops: seq<Op>, chains: map<nat, Chain>, h: nat, s: Stage)
    requires Headed(ops, chains) && h in chains
    ensures Headed(ops, Staged(chains, h, s))
  {
    forall g | g in chains ensures Heads(ops, g, Staged(chains, h, s)[g]) {
      assert Heads(ops, g, chains[g]);
    }
  }

  lemma HeadedGone(ops: seq<Op>, chains: map<nat, Chain>, h: nat)
    requires Headed(ops, chains)
    ensures Headed(ops, chains - {h})
  {
    forall g | g in chains - {h} ensures Heads(ops, g, (chains - {h})[g]) {
      assert Heads(ops, g, chains[g]);
    }
  }

  /** The chain of head h is linked up, and its descriptors are h's. */
  ghost predicate Owns(desc: seq<Desc>, own: seq<nat>, h: nat, c: Chain) {
    Linked(desc, h, c) && |own| == NUM && own[h] == h && own[c.i1] == h && own[c.i2] == h
  }

  /** Descriptor i is free, or in the chain of the head that owns it. */
  ghost predicate Placed(free: seq<bool>, desc: seq<Desc>, own: seq<nat>, chains: map<nat, Chain>, i: nat)
    requires |free| == |desc| == |own| == NUM && i < NUM
  {
    if free[i] then own[i] == NUM && desc[i] == NODESC
    else own[i] in chains && InChain(own[i], chains[own[i]], i)
  }

  /** Every descriptor is free or in exactly one chain of three. */
  ghost predicate Partition(free: seq<bool>, desc: seq<Desc>, own: seq<nat>, chains: map<nat, Chain>) {
    && |free| == |desc| == |own| == NUM
    && (forall h {:trigger Owns(desc, own, h, chains[h])} :: h in chains ==> Owns(desc, own, h, chains[h]))
    && (forall i {:trigger Placed(free, desc, own, chains, i)} :: 0 <= i < NUM ==> Placed(free, desc, own, chains, i))
  }

  /** A ring of NUM heads between two 16-bit indices. */
  ghost predicate Ring(ring: seq<nat>, from: nat, to: nat, heads: seq<nat>) {
    && |ring| == NUM && from < WRAP && to == (from + |heads|) % WRAP && |heads| <= NUM
    && forall k :: 0 <= k < |heads| ==> ring[(from + k) % NUM] == heads[k]
  }

  ghost function FreeSet(free: seq<bool>): set<nat> {
    set i | 0 <= i < |free| && free[i]
  }

  lemma FewFree(free: seq<bool>, idx: seq<nat>)
    requires |idx| < 3 && forall i :: 0 <= i < |free| && free[i] ==> i in idx
    ensures |FreeSet(free)| < 3
  {
    if |idx| == 2 {
      SubsetSize(FreeSet(free), {idx[0], idx[1]});
    } else if |idx| == 1 {
      SubsetSize(FreeSet(free), {idx[0]});
    } else {
      assert FreeSet(free) == {};
    }
  }

  lemma EnoughFree(free: seq<bool>, idx: seq<nat>)
    requires |idx| == 3 && Distinct(idx) && forall k :: 0 <= k < 3 ==> idx[k] < |free| && free[idx[k]]
    ensures |FreeSet(free)| >= 3
  {
    SubsetSize({idx[0], idx[1], idx[2]}, FreeSet(free));
  }

  /** The heads of the ring are exactly the chains at one stage, each once. */
  ghost predicate Lists(heads: seq<nat>, chains: map<nat, Chain>, s: Stage) {
    && Distinct(heads)
    && (forall k :: 0 <= k < |heads| ==> heads[k] in chains && chains[heads[k]].stage == s)
    && (forall h :: h in chains && chains[h].stage == s ==> h in heads)
  }

  /** A ring with h at index i, which counts on modulo WRAP. */
  function Entered(ring: seq<nat>, i: nat, h: nat): (r: seq<nat>)
    requires |ring| == NUM
    ensures |r| == NUM
  {
    ring[i % NUM := h]
  }

  function Next(i: nat): nat {
    (i + 1) % WRAP
  }

  lemma RingPut(ring: seq<nat>, from: nat, to: nat, heads: seq<nat>, h: nat)
    requires Ring(ring, from, to, heads) && |heads| < NUM
    ensures Ring(Entered(ring, to, h), from, Next(to), heads + [h])
  {
  }

  lemma RingGet(ring: seq<nat>, from: nat, to: nat, heads: seq<nat>)
    requires Ring(ring, from, to, heads) && heads != []
    ensures ring[from % NUM] == heads[0] && Ring(ring, Next(from), to, heads[1..])
  {
  }

  function Owned(own: seq<nat>, h: nat, c: Chain, o: nat): seq<nat>
    requires h < |own| && c.i1 < |own| && c.i2 < |own|
  {
    own[h := o][c.i1 := o][c.i2 := o]
  }

  /** The k-th descriptor of a chain, and a table with x in the first k of them. */
  function Nth(h: nat, c: Chain, k: nat): nat {
    if k == 0 then h else if k == 1 then c.i1 else c.i2
  }

  function FreedTo<T>(s: seq<T>, h: nat, c: Chain, k: nat, x: T): (r: seq<T>)
    requires h < |s| && c.i1 < |s| && c.i2 < |s| && k <= 3
    ensures |r| == |s|
  {
    if k == 0 then s else FreedTo(s, h, c, k - 1, x)[Nth(h, c, k - 1) := x]
  }

  lemma AddChain(free: seq<bool>, desc: seq<Desc>, own: seq<nat>, chains: map<nat, Chain>,
                 f2: seq<bool>, d2: seq<Desc>, h: nat, c: Chain)
    requires Partition(free, desc, own, chains) && Linked(d2, h, c) && |f2| == NUM
    requires free[h] && free[c.i1] && free[c.i2]
    requires forall i :: 0 <= i < NUM ==> f2[i] == (free[i] && !InChain(h, c, i))
    requires forall i :: 0 <= i < NUM && !InChain(h, c, i) ==> d2[i] == desc[i]
    ensures h !in chains && Partition(f2, d2, Owned(own, h, c, h), chains[h := c])
  {
    var m, o := chains[h := c], Owned(own, h, c, h);
    assert Placed(free, desc, own, chains, h) && Placed(free, desc, own, chains, c.i1)
        && Placed(free, desc, own, chains, c.i2);
    assert h in chains ==> Owns(desc, own, h, chains[h]);
    forall g | g in m ensures Owns(d2, o, g, m[g]) {
      if g != h { assert Owns(desc, own, g, chains[g]); }
    }
    forall i | 0 <= i < NUM ensures Placed(f2, d2, o, m, i) {
      assert Placed(free, desc, own, chains, i);
    }
  }

  lemma RemoveChain(free: seq<bool>, desc: seq<Desc>, own: seq<nat>, chains: map<nat, Chain>,
                    f2: seq<bool>, d2: seq<Desc>, h: nat)
    requires Partition(free, desc, own, chains) && h in chains && |f2| == |d2| == NUM
    requires forall i :: 0 <= i < NUM ==> f2[i] == (free[i] || InChain(h, chains[h], i))
    requires forall i :: 0 <= i < NUM ==> d2[i] == if InChain(h, chains[h], i) then NODESC else desc[i]
    ensures Linked(desc, h, chains[h]) && Partition(f2, d2, Owned(own, h, chains[h], NUM), chains - {h})
  {
    assert Owns(desc, own, h, chains[h]);
    var m, o := chains - {h}, Owned(own, h, chains[h], NUM);
    forall g | g in m ensures Owns(d2, o, g, m[g]) {
      assert Owns(desc, own, g, chains[g]);
    }
    forall i | 0 <= i < NUM ensures Placed(f2, d2, o, m, i) {
      assert Placed(free, desc, own, chains, i);
    }
  }

  /** Only the stage of a chain changes. */
  lemma MoveChain(free: seq<bool>, desc: seq<Desc>, own: seq<nat>, chains: map<nat, Chain>, h: nat, s: Stage)
    requires Partition(free, desc, own, chains) && h in chains
    ensures h < NUM && Partition(free, desc, own, chains[h := chains[h].(stage := s)])
  {
    var m := chains[h := chains[h].(stage := s)];
    assert Owns(desc, own, h, chains[h]);
    forall g | g in m ensures Owns(desc, own, g, m[g]) {
      assert Owns(desc, own, g, chains[g]);
    }
    forall i | 0 <= i < NUM ensures Placed(free, desc, own, m, i) {
      assert Placed(free, desc, own, chains, i);
    }
  }

  lemma ListsRoom(free: seq<bool>, desc: seq<Desc>, own: seq<nat>, chains: map<nat, Chain>,
                  heads: seq<nat>, s: Stage, h: nat)
    requires Partition(free, desc, own, chains) && Lists(heads, chains, s)
    requires h < NUM && (h in chains ==> chains[h].stage != s)
    ensures |heads| < NUM
  {
    forall k | 0 <= k < |heads| ensures heads[k] < NUM {
      assert Owns(desc, own, heads[k], chains[heads[k]]);
    }
    Pigeons(heads + [h], NUM);
  }

  /** A ring that holds exactly the chains at stage s. */
  ghost predicate Queued(ring: seq<nat>, from: nat, to: nat, heads: seq<nat>, chains: map<nat, Chain>, s: Stage) {
    Ring(ring, from, to, heads) && Lists(heads, chains, s)
  }

  /** A chain comes to stage s, from another or from nowhere; it is last in that list. */
  lemma QueuedAdd(ring: seq<nat>, from: nat, to: nat, heads: seq<nat>, chains: map<nat, Chain>, s: Stage, h: nat,
                  c: Chain)
    requires Queued(ring, from, to, heads, chains, s) && |heads| < NUM
    requires c.stage == s && (h in chains ==> chains[h].stage != s)
    ensures Queued(Entered(ring, to, h), from, Next(to), heads + [h], chains[h := c], s)
  {
    RingPut(ring, from, to, heads, h);
    var m, l := chains[h := c], heads + [h];
    forall g | g in m && m[g].stage == s ensures g in l {
      if g == h { assert l[|heads|] == h; } else {
        var k :| 0 <= k < |heads| && heads[k] == g;
        assert l[k] == g;
      }
    }
  }

  /** The first chain of the list leaves stage s. */
  lemma QueuedDrop(ring: seq<nat>, from: nat, to: nat, heads: seq<nat>, chains: map<nat, Chain>, s: Stage, c: Chain)
    requires Queued(ring, from, to, heads, chains, s) && heads != [] && c.stage != s
    ensures ring[from % NUM] == heads[0]
    ensures Queued(ring, Next(from), to, heads[1..], chains[heads[0] := c], s)
  {
    RingGet(ring, from, to, heads);
    var m, l := chains[heads[0] := c], heads[1..];
    forall g | g in m && m[g].stage == s ensures g in l {
      var k :| 0 <= k < |heads| && heads[k] == g;
      assert l[k - 1] == g;
    }
  }

  /** A chain that is and was elsewhere. */
  lemma QueuedOther(ring: seq<nat>, from: nat, to: nat, heads: seq<nat>, chains: map<nat, Chain>, s: Stage, h: nat,
                    c: Chain)
    requires Queued(ring, from, to, heads, chains, s) && c.stage != s && (h in chains ==> chains[h].stage != s)
    ensures Queued(ring, from, to, heads, chains[h := c], s)
  {
  }

  lemma QueuedGone(ring: seq<nat>, from: nat, to: nat, heads: seq<nat>, chains: map<nat, Chain>, s: Stage, h: nat)
    requires Queued(ring, from, to, heads, chains, s) && h in chains && chains[h].stage != s
    ensures Queued(ring, from, to, heads, chains - {h}, s)
  {
  }

  /** The status byte: 0xff until the device has finished. */
  function StatusOf(stage: Stage): nat {
    if stage == Posted || stage == Taken then 0xff else 0
  }

  /** The driver's record of request h, and the flag of its buffer. */
  ghost predicate Request(info: seq<Info>, onDisk: set<nat>, h: nat, c: Chain) {
    && h < |info| && info[h].b == c.b != 0 && info[h].status == StatusOf(c.stage)
    && (c.b in onDisk <==> c.stage != Acked)
  }

  ghost predicate Tracked(info: seq<Info>, onDisk: set<nat>, chains: map<nat, Chain>) {
    && |info| == NUM
    && (forall h {:trigger Request(info, onDisk, h, chains[h])} :: h in chains ==> Request(info, onDisk, h, chains[h]))
    && (forall h, g :: h in chains && g in chains && chains[h].b == chains[g].b ==> h == g)
  }

  lemma TrackedSet(info: seq<Info>, onDisk: set<nat>, chains: map<nat, Chain>,
                   i2: seq<Info>, d2: set<nat>, h: nat, c: Chain)
    requires Tracked(info, onDisk, chains) && h < NUM && c.b != 0
    requires forall g :: g in chains && g != h ==> chains[g].b != c.b
    requires |i2| == NUM && i2 == info[h := i2[h]] && i2[h].b == c.b && i2[h].status == StatusOf(c.stage)
    requires forall b :: b != c.b && (h in chains ==> b != chains[h].b) ==> (b in d2 <==> b in onDisk)
    requires (c.b in d2 <==> c.stage != Acked) && (h in chains ==> chains[h].b == c.b)
    ensures Tracked(i2, d2, chains[h := c])
  {
    var m := chains[h := c];
    forall g | g in m ensures Request(i2, d2, g, m[g]) {
      if g != h { assert Request(info, onDisk, g, chains[g]); }
    }
  }

  lemma TrackedGone(info: seq<Info>, onDisk: set<nat>, chains: map<nat, Chain>, h: nat, x: Info)
    requires Tracked(info, onDisk, chains) && h < NUM
    ensures Tracked(info[h := x], onDisk, chains - {h})
  {
    var m := chains - {h};
    forall g | g in m ensures Request(info[h := x], onDisk, g, m[g]) {
      assert Request(info, onDisk, g, chains[g]);
    }
  }

  /** A ring with its two indices and the heads in it. */
  datatype Queue = Queue(ring: seq<nat>, from: nat, to: nat, heads: seq<nat>)

  function Put(q: Queue, h: nat): Queue
    requires |q.ring| == NUM
  {
    Queue(Entered(q.ring, q.to, h), q.from, Next(q.to), q.heads + [h])
  }

  function Rest(q: Queue): Queue
    requires q.heads != []
  {
    Queue(q.ring, Next(q.from), q.to, q.heads[1..])
  }

  datatype St = St(free: seq<bool>, desc: seq<Desc>, own: seq<nat>, info: seq<Info>, ops: seq<Op>, onDisk: set<nat>,
                   avail: Queue, used: Queue, chains: map<nat, Chain>)

  ghost predicate Inv(s: St) {
    && Partition(s.free, s.desc, s.own, s.chains) && Tracked(s.info, s.onDisk, s.chains) && Headed(s.ops, s.chains)
    && QueuedIn(s.avail, s.chains, Posted) && QueuedIn(s.used, s.chains, Done)
  }

  ghost predicate QueuedIn(q: Queue, chains: map<nat, Chain>, s: Stage) {
    Queued(q.ring, q.from, q.to, q.heads, chains, s)
  }

  ghost predicate Works(taken: set<nat>, chains: map<nat, Chain>, h: nat) {
    h in taken <==> h in chains && chains[h].stage == Taken
  }

  /** The device works on the requests that it has taken and not returned. */
  ghost predicate Working(taken: set<nat>, chains: map<nat, Chain>) {
    forall h {:trigger Works(taken, chains, h)} :: Works(taken, chains, h)
  }

  lemma WorkingSet(taken: set<nat>, chains: map<nat, Chain>, h: nat, c: Chain)
    requires Working(taken, chains)
    ensures c.stage == Taken ==> Working(taken + {h}, chains[h := c])
    ensures c.stage != Taken ==> Working(taken - {h}, chains[h := c])
    ensures c.stage != Taken && (h in chains ==> chains[h].stage != Taken) ==> Working(taken, chains[h := c])
  {
    var t, m := if c.stage == Taken then taken + {h} else taken - {h}, chains[h := c];
    forall x: nat ensures Works(t, m, x) {
      assert Works(taken, chains, x);
    }
    if h in chains ==> chains[h].stage != Taken {
      assert Works(taken, chains, h);
      assert taken - {h} == taken;
    }
  }

  lemma WorkingGone(taken: set<nat>, chains: map<nat, Chain>, h: nat)
    requires Working(taken, chains) && h in chains && chains[h].stage != Taken
    ensures Working(taken, chains - {h})
  {
    forall x: nat ensures Works(taken, chains - {h}, x) {
      assert Works(taken, chains, x);
    }
  }

  function Staged(chains: map<nat, Chain>, h: nat, s: Stage): map<nat, Chain>
    requires h in chains
  {
    chains[h := chains[h].(stage := s)]
  }

  /** The steps: a request is posted, fetched, completed, acknowledged, and taken down. */
  function DoPost(s: St, f: seq<bool>, d: seq<Desc>, h: nat, c: Chain): St
    requires |s.info| == |s.ops| == |s.own| == |s.avail.ring| == NUM && h < NUM && c.i1 < NUM && c.i2 < NUM
  {
    St(f, d, Owned(s.own, h, c, h), s.info[h := Info(c.b, 0xff)],
       s.ops[h := OpOf(c.write, c.sector)], s.onDisk + {c.b}, Put(s.avail, h), s.used,
      s.chains[h := c])
  }

  function DoFetch(s: St): St
    requires s.avail.heads != [] && s.avail.heads[0] in s.chains
  {
    s.(avail := Rest(s.avail), chains := Staged(s.chains, s.avail.heads[0], Taken))
  }

  function DoComplete(s: St, h: nat): St
    requires |s.info| == |s.used.ring| == NUM && h < NUM && h in s.chains
  {
    s.(info := s.info[h := s.info[h].(status := 0)], used := Put(s.used, h), chains := Staged(s.chains, h, Done))
  }

  function DoAck(s: St): St
    requires |s.info| == NUM && s.used.heads != [] && s.used.heads[0] < NUM && s.used.heads[0] in s.chains
  {
    var h := s.used.heads[0];
    s.(onDisk := s.onDisk - {s.info[h].b}, used := Rest(s.used), chains := Staged(s.chains, h, Acked))
  }

  function DoFinish(s: St, h: nat, f: seq<bool>, d: seq<Desc>): St
    requires |s.info| == |s.own| == NUM && h in s.chains && h < NUM && s.chains[h].i1 < NUM && s.chains[h].i2 < NUM
  {
    s.(free := f, desc := d, own := Owned(s.own, h, s.chains[h], NUM), info := s.info[h := s.info[h].(b := 0)],
       chains := s.chains - {h})
  }

  lemma PostInv(s: St, f: seq<bool>, d: seq<Desc>, h: nat, c: Chain)
    requires Inv(s) && c.b != 0 && c.stage == Posted && (forall g :: g in s.chains ==> s.chains[g].b != c.b)
    requires Linked(d, h, c) && |f| == NUM && s.free[h] && s.free[c.i1] && s.free[c.i2]
    requires forall i :: 0 <= i < NUM ==> f[i] == (s.free[i] && !InChain(h, c, i))
    requires forall i :: 0 <= i < NUM && !InChain(h, c, i) ==> d[i] == s.desc[i]
    ensures h !in s.chains && Inv(DoPost(s, f, d, h, c))
  {
    AddChain(s.free, s.desc, s.own, s.chains, f, d, h, c);
    ListsRoom(s.free, s.desc, s.own, s.chains, s.avail.heads, Posted, h);
    QueuedAdd(s.avail.ring, s.avail.from, s.avail.to, s.avail.heads, s.chains, Posted, h, c);
    QueuedOther(s.used.ring, s.used.from, s.used.to, s.used.heads, s.chains, Done, h, c);
    TrackedSet(s.info, s.onDisk, s.chains, s.info[h := Info(c.b, 0xff)], s.onDisk + {c.b}, h, c);
    HeadedSet(s.ops, s.chains, h, c, OpOf(c.write, c.sector));
  }

  lemma FetchInv(s: St)
    requires Inv(s) && s.avail.heads != []
    ensures s.avail.heads[0] in s.chains && s.avail.ring[s.avail.from % NUM] == s.avail.heads[0]
    ensures Inv(DoFetch(s))
  {
    var h := s.avail.heads[0];
    assert Request(s.info, s.onDisk, h, s.chains[h]);
    assert s.onDisk + {s.chains[h].b} == s.onDisk;
    QueuedDrop(s.avail.ring, s.avail.from, s.avail.to, s.avail.heads, s.chains, Posted, s.chains[h].(stage := Taken));
    QueuedOther(s.used.ring, s.used.from, s.used.to, s.used.heads, s.chains, Done, h, s.chains[h].(stage := Taken));
    Moves(s.free, s.desc, s.own, s.info, s.onDisk, s.chains, s.info, s.onDisk, h, Taken);
    HeadedStage(s.ops, s.chains, h, Taken);
  }

  lemma CompleteInv(s: St, h: nat)
    requires Inv(s) && h in s.chains && s.chains[h].stage == Taken
    ensures h < NUM && |s.info| == |s.used.ring| == NUM && Inv(DoComplete(s, h))
  {
    assert Owns(s.desc, s.own, h, s.chains[h]) && Request(s.info, s.onDisk, h, s.chains[h]);
    assert s.onDisk + {s.chains[h].b} == s.onDisk;
    ListsRoom(s.free, s.desc, s.own, s.chains, s.used.heads, Done, h);
    QueuedAdd(s.used.ring, s.used.from, s.used.to, s.used.heads, s.chains, Done, h, s.chains[h].(stage := Done));
    QueuedOther(s.avail.ring, s.avail.from, s.avail.to, s.avail.heads, s.chains, Posted, h,
      s.chains[h].(stage := Done));
    Moves(s.free, s.desc, s.own, s.info, s.onDisk, s.chains, s.info[h := s.info[h].(status := 0)], s.onDisk, h, Done);
    HeadedStage(s.ops, s.chains, h, Done);
  }

  lemma AckInv(s: St)
    requires Inv(s) && s.used.heads != []
    ensures var h := s.used.heads[0];
      && h < NUM && h in s.chains && s.chains[h].stage == Done && s.used.ring[s.used.from % NUM] == h
      && |s.info| == NUM && s.info[h].status == 0 && Inv(DoAck(s))
  {
    var h := s.used.heads[0];
    assert Owns(s.desc, s.own, h, s.chains[h]) && Request(s.info, s.onDisk, h, s.chains[h]);
    QueuedDrop(s.used.ring, s.used.from, s.used.to, s.used.heads, s.chains, Done, s.chains[h].(stage := Acked));
    QueuedOther(s.avail.ring, s.avail.from, s.avail.to, s.avail.heads, s.chains, Posted, h,
      s.chains[h].(stage := Acked));
    Moves(s.free, s.desc, s.own, s.info, s.onDisk, s.chains, s.info, s.onDisk - {s.info[h].b}, h, Acked);
    HeadedStage(s.ops, s.chains, h, Acked);
  }

  lemma FinishInv(s: St, h: nat, f: seq<bool>, d: seq<Desc>)
    requires Inv(s) && h in s.chains && s.chains[h].stage == Acked && |f| == |d| == NUM
    requires forall i :: 0 <= i < NUM ==> f[i] == (s.free[i] || InChain(h, s.chains[h], i))
    requires forall i :: 0 <= i < NUM ==> d[i] == if InChain(h, s.chains[h], i) then NODESC else s.desc[i]
    ensures Linked(s.desc, h, s.chains[h]) && Inv(DoFinish(s, h, f, d))
  {
    RemoveChain(s.free, s.desc, s.own, s.chains, f, d, h);
    TrackedGone(s.info, s.onDisk, s.chains, h, s.info[h].(b := 0));
    HeadedGone(s.ops, s.chains, h);
    QueuedGone(s.avail.ring, s.avail.from, s.avail.to, s.avail.heads, s.chains, Posted, h);
    QueuedGone(s.used.ring, s.used.from, s.used.to, s.used.heads, s.chains, Done, h);
  }

  lemma RequestOf(s: St, h: nat)
    requires Inv(s) && h in s.chains
    ensures h < NUM && (s.chains[h].b in s.onDisk <==> s.chains[h].stage != Acked)
  {
    assert Request(s.info, s.onDisk, h, s.chains[h]);
  }

  /** What the device makes of a request: which way, where on the disk, which buffer, whose status. */
  datatype Order = Order(write: bool, sector: nat, b: nat, status: nat) | Garbled

  /** The device follows the chain of head h, with the rules of section 5.2 of VirtIO 1.1. */
  function Follow(desc: seq<Desc>, ops: seq<Op>, h: nat): Order
    requires |desc| == |ops| == NUM
  {
    if h >= NUM || !desc[h].more || desc[h].next >= NUM then Garbled
    else
      var i := desc[h].next;
      if !desc[i].more || desc[i].next >= NUM then Garbled
      else
        var a, d, e := desc[h], desc[i], desc[desc[i].next];
        if !(a.addr.Header? && a.addr.h < NUM && a.len == HEADER && !a.write) then Garbled
        else if !(d.addr.Data? && d.len == BSIZE) || !(e.addr.Status? && e.len == 1 && e.write && !e.more) then Garbled
        else
          var op := ops[a.addr.h];
          if op.kind == 1 && !d.write then Order(true, op.sector, d.addr.b, e.addr.h)
          else if op.kind == 0 && d.write then Order(false, op.sector, d.addr.b, e.addr.h)
          else Garbled
  }

  /** It comes to what the caller asked for. */
  lemma OrderOf(s: St, h: nat)
    requires Inv(s) && h in s.chains
    ensures |s.desc| == |s.ops| == NUM
    ensures var c := s.chains[h]; Follow(s.desc, s.ops, h) == Order(c.write, c.sector, c.b, h)
  {
    assert Owns(s.desc, s.own, h, s.chains[h]) && Heads(s.ops, h, s.chains[h]);
  }

  lemma FirstPosted(s: St)
    requires Inv(s)
    ensures s.avail.from == s.avail.to <==> s.avail.heads == []
    ensures s.avail.heads != [] ==> s.avail.heads[0] in s.chains && s.chains[s.avail.heads[0]].stage == Posted
  {
    RingEmpty(s.avail.ring, s.avail.from, s.avail.to, s.avail.heads);
    if s.avail.heads != [] { assert s.avail.heads[0] in s.avail.heads; }
  }

  lemma FirstDone(s: St)
    requires Inv(s)
    ensures s.used.from == s.used.to <==> s.used.heads == []
    ensures s.used.heads != [] ==> s.used.heads[0] in s.chains && s.chains[s.used.heads[0]].stage == Done
  {
    RingEmpty(s.used.ring, s.used.from, s.used.to, s.used.heads);
    if s.used.heads != [] { assert s.used.heads[0] in s.used.heads; }
  }

  /** A chain moves to another stage: what is kept of descriptors and records. */
  lemma Moves(free: seq<bool>, desc: seq<Desc>, own: seq<nat>, info: seq<Info>, onDisk: set<nat>,
              chains: map<nat, Chain>, i2: seq<Info>, d2: set<nat>, h: nat, s: Stage)
    requires Partition(free, desc, own, chains) && Tracked(info, onDisk, chains) && h in chains && |i2| == NUM
    requires h < NUM ==> i2 == info[h := i2[h]] && i2[h].b == info[h].b && i2[h].status == StatusOf(s)
    requires d2 == if s == Acked then onDisk - {chains[h].b} else onDisk + {chains[h].b}
    ensures var m := chains[h := chains[h].(stage := s)];
      h < NUM && Partition(free, desc, own, m) && Tracked(i2, d2, m)
  {
    MoveChain(free, desc, own, chains, h, s);
    assert Request(info, onDisk, h, chains[h]);
    TrackedSet(info, onDisk, chains, i2, d2, h, chains[h].(stage := s));
  }

  lemma RingEmpty(ring: seq<nat>, from: nat, to: nat, heads: seq<nat>)
    requires Ring(ring, from, to, heads)
    ensures from == to <==> heads == []
  {
  }

  // --- The device while the driver is in its interrupt handler ---

  /** The device takes the next head, or returns one that it has taken. */
  datatype Act = Take | Return(h: nat)

  /** What the device's steps change: the stages, the heads to be taken and those returned. */
  datatype Work = Work(chains: map<nat, Chain>, posted: seq<nat>, done: seq<nat>)

  /** One step of the device, nothing if it is not possible. */
  function Acted(w: Work, act: Act): Work {
    match act
    case Take =>
      if w.posted == [] || w.posted[0] !in w.chains then w
      else Work(Staged(w.chains, w.posted[0], Taken), w.posted[1..], w.done)
    case Return(h) =>
      if h !in w.chains || w.chains[h].stage != Taken then w
      else Work(Staged(w.chains, h, Done), w.posted, w.done + [h])
  }

  /** The first n of the steps. */
  function Ran(w: Work, acts: seq<Act>, n: nat): Work
    requires n <= |acts|
  {
    if n == 0 then w else Acted(Ran(w, acts, n - 1), acts[n - 1])
  }

  /** Some requests that were done are acknowledged; nothing else happened. */
  ghost predicate OnlyAcked(c0: map<nat, Chain>, c: map<nat, Chain>) {
    && c.Keys == c0.Keys
    && forall h :: h in c0 ==> c[h] == c0[h] || (c0[h].stage == Done && c[h] == c0[h].(stage := Acked))
  }

  lemma AckedMore(c0: map<nat, Chain>, c: map<nat, Chain>, h: nat)
    requires OnlyAcked(c0, c) && h in c && c[h].stage == Done
    ensures OnlyAcked(c0, Staged(c, h, Acked))
  {
  }

  /** The device's step is the same whether the driver has acknowledged yet or not. */
  lemma ActedAcked(w0: Work, w: Work, acked: seq<nat>, act: Act)
    requires OnlyAcked(w0.chains, w.chains) && w.posted == w0.posted && w0.done == acked + w.done
    requires w.posted != [] && w.posted[0] in w.chains ==> w.chains[w.posted[0]].stage == Posted
    ensures var v0, v := Acted(w0, act), Acted(w, act);
      OnlyAcked(v0.chains, v.chains) && v.posted == v0.posted && v0.done == acked + v.done
  {
  }

  /** Nothing is left in the used ring: all that was done is acknowledged. */
  lemma AllAcked(c0: map<nat, Chain>, c: map<nat, Chain>)
    requires OnlyAcked(c0, c) && Lists([], c, Done)
    ensures forall h :: h in c ==> c[h] == if c0[h].stage == Done then c0[h].(stage := Acked) else c0[h]
  {
    forall h | h in c ensures c[h].stage != Done {
      assert h !in [];
    }
  }

  class Disk {
    var free: seq<bool>
    var desc: seq<Desc>
    var info: seq<Info>
    var ops: seq<Op>
    var availRing: seq<nat>
    var availIdx: nat
    var usedRing: seq<nat>
    var usedIdx: nat             // written by the device
    var seenIdx: nat             // the driver's own used_idx
    var onDisk: set<nat>         // buffers whose disk flag is 1
    var devIdx: nat              // how far the device has read the avail ring
    var taken: set<nat>          // heads that the device works on
    ghost var chains: map<nat, Chain>
    ghost var own: seq<nat>      // the head of the chain a descriptor is in, NUM if it is free
    ghost var posted: seq<nat>
    ghost var done: seq<nat>

    ghost function View(): St
      reads this
    {
      St(free, desc, own, info, ops, onDisk, Avail(), Used(), chains)
    }

    ghost function Avail(): Queue
      reads `availRing, `devIdx, `availIdx, `posted
    {
      Queue(availRing, devIdx, availIdx, posted)
    }

    ghost function Used(): Queue
      reads `usedRing, `seenIdx, `usedIdx, `done
    {
      Queue(usedRing, seenIdx, usedIdx, done)
    }

    ghost predicate Valid()
      reads this
    {
      Inv(View()) && Working(taken, chains)
    }

    ghost function Load(): Work
      reads this
    {
      Work(chains, posted, done)
    }

    constructor ()
      ensures Valid() && chains == map[] && onDisk == {}
    {
      free := seq(NUM, i => true);
      desc := seq(NUM, i => NODESC);
      info, ops := seq(NUM, i => Info(0, 0)), seq(NUM, i => Op(0, 0, 0));
      availRing, usedRing := seq(NUM, i => 0), seq(NUM, i => 0);
      availIdx, usedIdx, seenIdx, devIdx, onDisk, taken := 0, 0, 0, 0, {}, {};
      chains, own, posted, done := map[], seq(NUM, i => NUM), [], [];
    }

    /** The lowest free descriptor, NUM if there is none. */
    method AllocDesc() returns (i: nat)
      requires |free| == NUM
      modifies `free
      ensures i <= NUM && forall j :: 0 <= j < i ==> !old(free)[j]
      ensures i < NUM ==> old(free)[i] && free == old(free)[i := false]
      ensures i == NUM ==> free == old(free)
    {
      i := 0;
      while i < NUM
        invariant i <= NUM && free == old(free) && forall j :: 0 <= j < i ==> !free[j]
      {
        if free[i] {
          free := free[i := false];
          return;
        }
        i := i + 1;
      }
    }

    /** The source panics on a descriptor that is free. */
    method FreeDesc(i: nat)
      requires |free| == |desc| == NUM && i < NUM && !free[i]
      modifies `free, `desc
      ensures free == old(free)[i := true] && desc == old(desc)[i := NODESC]
    {
      desc := desc[i := NODESC];
      free := free[i := true];
    }

    method FreeChain(h: nat)
      requires Partition(free, desc, own, chains) && h in chains
      modifies `free, `desc
      ensures |free| == |desc| == NUM
      ensures forall i :: 0 <= i < NUM ==> free[i] == (old(free)[i] || InChain(h, chains[h], i))
      ensures forall i :: 0 <= i < NUM ==> desc[i] == if InChain(h, chains[h], i) then NODESC else old(desc)[i]
    {
      ghost var c := chains[h];
      assert Owns(desc, own, h, c);
      assert Placed(free, desc, own, chains, h) && Placed(free, desc, own, chains, c.i1) &&
        Placed(free, desc, own, chains, c.i2);
      var i := h;
      ghost var k := 0;
      while true
        invariant |free| == |desc| == NUM && k < 3 && i == Nth(h, c, k)
        invariant free == FreedTo(old(free), h, c, k, true)
        invariant desc == FreedTo(old(desc), h, c, k, NODESC)
        decreases 3 - k
      {
        var flag, nxt := desc[i].more, desc[i].next;
        FreeDesc(i);
        k := k + 1;
        if flag {
          i := nxt;
        } else {
          break;
        }
      }
    }

    /** Three descriptors, or none at all if fewer than three are free. */
    method Alloc3() returns (ok: bool, idx: seq<nat>)
      requires |free| == |desc| == NUM && forall i :: 0 <= i < NUM && free[i] ==> desc[i] == NODESC
      modifies `free, `desc
      ensures desc == old(desc) && |free| == NUM && |idx| <= 3 && (ok <==> |idx| == 3)
      ensures forall k :: 0 <= k < |idx| ==> idx[k] < NUM && old(free)[idx[k]]
      ensures ok ==> Distinct(idx) && forall i :: 0 <= i < NUM ==> free[i] == (old(free)[i] && i !in idx)
      ensures !ok ==> free == old(free)
      ensures ok <==> |FreeSet(old(free))| >= 3
    {
      idx := [];
      while |idx| < 3
        invariant |free| == NUM && desc == old(desc) && |idx| <= 3 && Distinct(idx)
        invariant forall k :: 0 <= k < |idx| ==> idx[k] < NUM && old(free)[idx[k]]
        invariant forall i :: 0 <= i < NUM ==> free[i] == (old(free)[i] && i !in idx)
      {
        var i := AllocDesc();
        if i == NUM {
          FreeAll(idx, old(free));
          FewFree(free, idx);
          return false, idx;
        }
        idx := idx + [i];
      }
      EnoughFree(old(free), idx);
      return true, idx;
    }

    /** The failure exit of alloc3_desc(). */
    method FreeAll(idx: seq<nat>, ghost f: seq<bool>)
      requires |free| == |desc| == |f| == NUM && Distinct(idx)
      requires forall k :: 0 <= k < |idx| ==> idx[k] < NUM && f[idx[k]] && desc[idx[k]] == NODESC
      requires forall i :: 0 <= i < NUM ==> free[i] == (f[i] && i !in idx)
      modifies `free, `desc
      ensures free == f && desc == old(desc)
    {
      var j := 0;
      while j < |idx|
        invariant j <= |idx| && |free| == NUM && desc == old(desc)
        invariant forall i :: 0 <= i < NUM ==> free[i] == (f[i] && i !in idx[j..])
      {
        assert idx[j] in idx[j..];
        FreeDesc(idx[j]);
        assert desc == old(desc);
        j := j + 1;
      }
    }

    /**
      The first stretch of virtio_disk_rw(): post a request for buffer b of a block, or sleep for
      descriptors.
     */
    method Start(b: nat, blockno: nat, write: bool) returns (ok: bool, h: nat)
      requires Valid() && b != 0 && forall g :: g in chains ==> chains[g].b != b
      modifies this
      ensures Valid()
      ensures ok <==> |FreeSet(old(free))| >= 3
      ensures !ok ==> unchanged(this)
      ensures ok ==> h !in old(chains) && h in chains && chains == old(chains)[h := chains[h]]
      ensures ok ==> chains[h].b == b && chains[h].write == write && chains[h].sector == SectorOf(blockno)
      ensures ok ==> chains[h].stage == Posted && posted == old(posted) + [h]
    {
      forall i | 0 <= i < NUM ensures free[i] ==> desc[i] == NODESC {
        assert Placed(free, desc, own, chains, i);
      }
      var idx;
      ok, idx := Alloc3();
      if !ok {
        return false, 0;
      }
      h := idx[0];
      ghost var c := Send(b, write, blockno * (BSIZE / 512) % UINT, idx, old(View()));
      WorkingSet(taken, old(chains), h, c);
    }

    /** The request is written down, and goes to the device. */
    method Send(b: nat, write: bool, sector: nat, idx: seq<nat>, ghost s: St) returns (ghost c: Chain)
      requires Inv(s) && View() == s.(free := free) && |free| == NUM && |idx| == 3 && Distinct(idx)
      requires forall k :: 0 <= k < 3 ==> idx[k] < NUM && s.free[idx[k]]
      requires forall i :: 0 <= i < NUM ==> free[i] == (s.free[i] && i !in idx)
      requires b != 0 && forall g :: g in chains ==> chains[g].b != b
      modifies `desc, `ops, `onDisk, `info, `availRing, `availIdx, `chains, `own, `posted
      ensures Inv(View()) && c == Chain(idx[1], idx[2], b, write, sector, Posted)
      ensures idx[0] !in old(chains) && chains == old(chains)[idx[0] := c] && posted == old(posted) + [idx[0]]
    {
      Format(b, write, sector, idx);
      c := Chain(idx[1], idx[2], b, write, sector, Posted);
      PostInv(s, free, desc, idx[0], c);
      Enter(b, idx[0], c, s);
    }

    method Enter(b: nat, h: nat, ghost c: Chain, ghost s: St)
      requires |s.info| == |s.ops| == |s.own| == |s.avail.ring| == NUM && h < NUM && c.i1 < NUM && c.i2 < NUM
      requires View() == s.(free := free, desc := desc, ops := s.ops[h := OpOf(c.write, c.sector)]) && b == c.b
      modifies `onDisk, `info, `availRing, `availIdx, `chains, `own, `posted
      ensures View() == DoPost(s, free, desc, h, c)
    {
      Post(b, h, c);
    }

    method Post(b: nat, h: nat, ghost c: Chain)
      requires |info| == |own| == |availRing| == NUM && h < NUM && c.i1 < NUM && c.i2 < NUM
      modifies `onDisk, `info, `availRing, `availIdx, `chains, `own, `posted
      ensures info == old(info)[h := Info(b, 0xff)] && onDisk == old(onDisk) + {b}
      ensures Avail() == Put(old(Avail()), h)
      ensures chains == old(chains)[h := c] && own == Owned(old(own), h, c, h)
    {
      info := info[h := Info(b, 0xff)];
      onDisk := onDisk + {b};
      availRing, availIdx := Entered(availRing, availIdx, h), Next(availIdx);
      chains, own, posted := chains[h := c], Owned(own, h, c, h), posted + [h];
    }

    /** The request header, and the three descriptors: header, data, status byte. */
    method Format(b: nat, write: bool, sector: nat, idx: seq<nat>)
      requires |desc| == |ops| == NUM && |idx| == 3 && Distinct(idx) && forall k :: 0 <= k < 3 ==> idx[k] < NUM
      modifies `desc, `ops
      ensures |desc| == NUM && Linked(desc, idx[0], Chain(idx[1], idx[2], b, write, sector, Posted))
      ensures ops == old(ops)[idx[0] := OpOf(write, sector)]
      ensures forall i :: 0 <= i < NUM && i !in idx ==> desc[i] == old(desc)[i]
    {
      ops := ops[idx[0] := Op(if write then 1 else 0, 0, sector)];
      desc := desc[idx[0] := Desc(Header(idx[0]), HEADER, true, false, idx[1])];
      desc := desc[idx[1] := Desc(Data(b), BSIZE, true, !write, idx[2])];
      desc := desc[idx[2] := Desc(Status(idx[0]), 1, false, true, 0)];
    }

    /**
      The rest of virtio_disk_rw(): sleep while the buffer is on the disk, else take the chain
      down.  A request ends only after its own completion was acknowledged.
     */
    method Finish(b: nat, h: nat) returns (ok: bool)
      requires Valid() && h in chains && chains[h].b == b
      modifies `free, `desc, `info, `own, `chains
      ensures Valid() && (ok <==> old(chains)[h].stage == Acked)
      ensures !ok ==> unchanged(this)
      ensures ok ==> chains == old(chains) - {h}
      ensures ok ==> forall i :: 0 <= i < NUM ==> free[i] == (old(free)[i] || InChain(h, old(chains)[h], i))
    {
      RequestOf(View(), h);
      if b in onDisk {
        return false;
      }
      WorkingGone(taken, chains, h);
      TakeDown(h);
      return true;
    }

    method TakeDown(h: nat)
      requires Inv(View()) && h in chains && chains[h].stage == Acked
      modifies `free, `desc, `info, `own, `chains
      ensures Inv(View()) && chains == old(chains) - {h}
      ensures |free| == |old(free)| == NUM
      ensures forall i :: 0 <= i < NUM ==> free[i] == (old(free)[i] || InChain(h, old(chains)[h], i))
    {
      ghost var s := View();
      RequestOf(s, h);
      info := info[h := info[h].(b := 0)];
      FreeChain(h);
      FinishInv(s, h, free, desc);
      Release(h, s);
    }

    ghost method Release(h: nat, s: St)
      requires |s.info| == |s.own| == NUM && h < NUM && h in s.chains && s.chains[h].i1 < NUM && s.chains[h].i2 < NUM
      requires View() == s.(free := free, desc := desc, info := s.info[h := s.info[h].(b := 0)])
      modifies `own, `chains
      ensures View() == DoFinish(s, h, free, desc)
    {
      own, chains := Owned(own, h, chains[h], NUM), chains - {h};
    }

    /** One turn of the loop of virtio_disk_intr(). */
    method Ack()
      requires Valid() && done != []
      modifies `onDisk, `seenIdx, `chains, `done
      ensures Valid() && done == old(done)[1..] && (seenIdx == usedIdx <==> done == [])
      ensures old(done)[0] in old(chains) && chains == Staged(old(chains), old(done)[0], Acked)
    {
      AckInv(View());
      WorkingSet(taken, chains, done[0], chains[done[0]].(stage := Acked));
      SeeUsed();
      RingEmpty(usedRing, seenIdx, usedIdx, done);
    }

    method SeeUsed()
      requires |info| == |usedRing| == NUM && done != [] && usedRing[seenIdx % NUM] == done[0]
      requires done[0] < NUM && done[0] in chains && info[done[0]].status == 0
      modifies `onDisk, `seenIdx, `chains, `done
      ensures View() == DoAck(old(View()))
    {
      var id := usedRing[seenIdx % NUM];
      assert info[id].status == 0;
      onDisk := onDisk - {info[id].b};
      seenIdx := Next(seenIdx);
      chains, done := Staged(chains, id, Acked), done[1..];
    }

    /**
      The device takes the first n of the steps `acts` during the call, at any points between
      the turns.  Every completion, of before or of meanwhile, is acknowledged once, in order.
     */
    method Intr(acts: seq<Act>) returns (n: nat, ghost acked: seq<nat>)
      requires Valid()
      modifies this
      ensures Valid() && done == [] && n <= |acts|
      ensures var w := Ran(old(Load()), acts, n);
        && acked == w.done && posted == w.posted && chains.Keys == w.chains.Keys
        && forall h :: h in chains ==>
             chains[h] == if w.chains[h].stage == Done then w.chains[h].(stage := Acked) else w.chains[h]
    {
      acked, n := [], 0;
      RingEmpty(usedRing, seenIdx, usedIdx, done);
      n := Meanwhile(acts, n, old(Load()), acked);
      while seenIdx != usedIdx
        invariant Valid() && n <= |acts| && (seenIdx == usedIdx <==> done == [])
        invariant Behind(Ran(old(Load()), acts, n), acked)
        decreases |acts| - n, |done|
      {
        acked := Turn(Ran(old(Load()), acts, n), acked);
        n := Meanwhile(acts, n, old(Load()), acked);
      }
      AllAcked(Ran(old(Load()), acts, n).chains, chains);
    }

    /** One turn of the loop. */
    method Turn(ghost w: Work, ghost acked: seq<nat>) returns (ghost more: seq<nat>)
      requires Valid() && done != [] && Behind(w, acked)
      modifies `onDisk, `seenIdx, `chains, `done
      ensures Valid() && |done| < |old(done)| && (seenIdx == usedIdx <==> done == []) && Behind(w, more)
    {
      FirstDone(View());
      AckedMore(w.chains, chains, done[0]);
      more := acked + [done[0]];
      assert more + done[1..] == acked + done;
      Ack();
    }

    /** What the device has done is w; of that the driver has acknowledged the heads `acked`. */
    ghost predicate Behind(w: Work, acked: seq<nat>)
      reads this
    {
      OnlyAcked(w.chains, chains) && posted == w.posted && w.done == acked + done
    }

    /** The device goes on for a while with its steps from the n-th on. */
    method Meanwhile(acts: seq<Act>, n: nat, ghost w: Work, ghost acked: seq<nat>) returns (m: nat)
      requires Valid() && n <= |acts| && Behind(Ran(w, acts, n), acked)
      modifies this
      ensures Valid() && n <= m <= |acts| && Behind(Ran(w, acts, m), acked)
      ensures m == n ==> unchanged(this)
      ensures seenIdx == usedIdx <==> done == []
    {
      var end :| n <= end <= |acts|;
      m := n;
      while m < end
        invariant n <= m <= end && Valid() && (m == n ==> unchanged(this)) && Behind(Ran(w, acts, m), acked)
      {
        m := Goes(acts, m, w, acked);
      }
      FirstDone(View());
    }

    method Goes(acts: seq<Act>, n: nat, ghost w: Work, ghost acked: seq<nat>) returns (m: nat)
      requires Valid() && n < |acts| && Behind(Ran(w, acts, n), acked)
      modifies this
      ensures Valid() && m == n + 1 && Behind(Ran(w, acts, m), acked)
    {
      FirstPosted(View());
      ActedAcked(Ran(w, acts, n), Load(), acked, acts[n]);
      Device(acts[n]);
      m := n + 1;
    }

    method Device(act: Act)
      requires Valid()
      modifies this
      ensures Valid() && Load() == Acted(old(Load()), act)
    {
      FirstPosted(View());
      assert act.Return? ==> Works(taken, chains, act.h);
      match act
      case Take =>
        if devIdx != availIdx {
          var h, req := Fetch();
        }
      case Return(h) =>
        if h in taken {
          Complete(h);
        }
    }

    /** The device takes the next head from the avail ring. */
    method Fetch() returns (h: nat, req: Order)
      requires Valid() && devIdx != availIdx
      modifies `devIdx, `taken, `chains, `posted
      ensures Valid() && old(posted) != [] && h == old(posted)[0] && posted == old(posted)[1..]
      ensures h in old(chains) && chains == Staged(old(chains), h, Taken) && done == old(done)
      ensures req == Order(chains[h].write, chains[h].sector, chains[h].b, h)
    {
      ghost var s := View();
      FetchInv(s);
      OrderOf(s, posted[0]);
      WorkingSet(taken, chains, posted[0], chains[posted[0]].(stage := Taken));
      h := availRing[devIdx % NUM];
      req := Follow(desc, ops, h);
      TakeHead(h);
    }

    method TakeHead(h: nat)
      requires posted != [] && h == posted[0] && h in chains
      modifies `devIdx, `taken, `chains, `posted
      ensures View() == DoFetch(old(View())) && taken == old(taken) + {h}
    {
      devIdx, taken := Next(devIdx), taken + {h};
      chains, posted := Staged(chains, h, Taken), posted[1..];
    }

    /** The device finishes a request that it took, in any order, with success. */
    method Complete(h: nat)
      requires Valid() && h in taken
      modifies `info, `usedRing, `usedIdx, `taken, `chains, `done
      ensures Valid() && done == old(done) + [h] && h in old(chains) && chains == Staged(old(chains), h, Done)
    {
      assert Works(taken, chains, h);
      CompleteInv(View(), h);
      WorkingSet(taken, chains, h, chains[h].(stage := Done));
      PutUsed(h);
    }

    method PutUsed(h: nat)
      requires |info| == |usedRing| == NUM && h < NUM && h in chains
      modifies `info, `usedRing, `usedIdx, `taken, `chains, `done
      ensures Used() == Put(old(Used()), h) && taken == old(taken) - {h}
      ensures info == old(info)[h := old(info)[h].(status := 0)] && chains == Staged(old(chains), h, Done)
    {
      info := info[h := info[h].(status := 0)];
      usedRing, usedIdx := Entered(usedRing, usedIdx, h), Next(usedIdx);
      taken := taken - {h};
      chains, done := Staged(chains, h, Done), done + [h];
    }
  }
}
