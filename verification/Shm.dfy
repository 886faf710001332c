/**
  shm_open() and shm_close() of kernel/shm.c.  The lock is held throughout each call, so
  every interleaving of processes is a sequence of the calls below.

  The process's page table is its flat map from page numbers to physical pages.  `pool`
  holds the pages that kalloc can give.
 */
module Shm {
  import opened SharedMemory
  import opened Params

  const TRAPFRAME: nat := 0x3F_FFFF_E000

  const MAXSIZE: int := 0x7FFF_F000     // size + PGSIZE - 1 fits in an int

  /** What a close does to the region r of slot i, and to the free pages. */
  ghost predicate Released(r: Region, t: seq<Region>, t0: seq<Region>, i: nat, pool: set<nat>, pool0: set<nat>)
    requires i < |t0|
  {
    if r.refcount > 1 then t == t0[i := r.(refcount := r.refcount - 1)] && pool == pool0
    else t == t0[i := NOREGION] && forall x :: x in pool <==> x in pool0 || x in r.pages
  }

  /** Process p0 has become p: attached to the region in slot i by record k. */
  ghost predicate Entered(p0: Proc, p: Proc, t0: seq<Region>, t: seq<Region>, k: nat, i: nat) {
    && k < |p0.shm| && i < |t0| && p == Joined(p0, k, t0[i]) && Gains(p0, p, k, t0[i].key, t0[i].pages)
    && t == t0[i := t0[i].(refcount := t0[i].refcount + 1)]
  }

  /** The pages ps have left the free pages pool0. */
  ghost predicate Without(pool: set<nat>, pool0: set<nat>, ps: seq<nat>) {
    |pool| == |pool0| - |ps| && forall x :: (x in ps ==> x in pool0) && (x in pool <==> x in pool0 && x !in ps)
  }

  /** The regions of t0 keep their slots and pages in t. */
  ghost predicate SameRegions(t0: seq<Region>, t: seq<Region>) {
    forall g :: 0 <= g < |t0| && t0[g].key != 0 ==>
      g < |t| && t[g].key == t0[g].key && t[g].pages == t0[g].pages
  }

  /** Whole pages for the size, no more than a region can have. */
  function PagesFor(size: nat): nat {
    var n := (size + PGSIZE - 1) / PGSIZE;
    if n > SHM_MAXPGS then SHM_MAXPGS else n
  }

  /** They hold the size, if that is not too much, and none of them is in excess. */
  lemma PagesSuffice(size: nat)
    ensures PagesFor(size) <= SHM_MAXPGS && (size > 0 ==> (PagesFor(size) - 1) * PGSIZE < size)
    ensures size <= PagesFor(size) * PGSIZE <==> size <= SHM_MAXPGS * PGSIZE
  {
  }

  /** The process has no attachments. */
  predicate Unattached(p: Proc) {
    |p.shm| == PROC_SHM_SLOTS && forall k :: 0 <= k < |p.shm| ==> p.shm[k] == NOATTACH
  }

  /** No slot for a new region, or not enough pages. */
  predicate NoRegion(table: seq<Region>, size: nat, pages: nat) {
    Slot(table, 0) == |table| || PagesFor(size) > pages
  }

  /** Process p has the region, or has a record, address space and page tables left for its n pages. */
  predicate CanAttach(p: Proc, key: nat, n: nat, room: nat) {
    || Index(p.shm, key) < PROC_SHM_SLOTS
    || (Index(p.shm, 0) < PROC_SHM_SLOTS && PageRoundUp(p.sz) + n * PGSIZE <= TRAPFRAME && n <= room)
  }

  /** The call finds no region of the key and makes one, but cannot attach process p to it. */
  predicate Strays(table: seq<Region>, p: Proc, pages: nat, key: int, size: int, room: nat) {
    && key > 0 && size > 0 && Slot(table, key) == |table|
    && !NoRegion(table, size, pages) && !CanAttach(p, key, PagesFor(size), room)
  }

  /** When shm_open() fails. */
  predicate Fails(table: seq<Region>, p: Proc, pages: nat, key: int, size: int, room: nat) {
    || key <= 0 || size <= 0
    || var i := Slot(table, key);
       if i < |table| then !CanAttach(p, key, |table[i].pages|, room)
       else NoRegion(table, size, pages) || !CanAttach(p, key, PagesFor(size), room)
  }

  /** In a state that can come about, a region is left only when address space or page tables run out. */
  lemma StrayReason(s: St, id: nat, pages: nat, key: int, size: int, room: nat)
    requires Inv(s) && id in s.procs && Strays(s.table, s.procs[id], pages, key, size, room)
    ensures PageRoundUp(s.procs[id].sz) + PagesFor(size) * PGSIZE > TRAPFRAME || PagesFor(size) > room
  {
    if Index(s.procs[id].shm, 0) == PROC_SHM_SLOTS { RecordsSuffice(s, id); }
  }

  lemma NothingAbove(p: Proc, v: nat)
    requires Within(p) && v == PageRoundUp(p.sz) / PGSIZE
    ensures forall y :: v <= y ==> y !in p.maps
  {
    forall y | v <= y ensures y !in p.maps {
      assert y * PGSIZE >= p.sz;
    }
  }

  class Shm {
    var table: seq<Region>
    var procs: map<nat, Proc>
    var pool: set<nat>
    ghost var home: map<nat, Home>
    ghost var who: seq<set<nat>>

    ghost function View(): St
      reads this
    {
      St(table, procs, home, who)
    }

    ghost predicate Pooled()
      reads this
    {
      forall x :: x in pool <==> x in home && home[x] == Free
    }

    ghost predicate Valid()
      reads this
    {
      Inv(View()) && Pooled()
    }

    /** shminit(), with these free pages and processes. */
    constructor (pages: set<nat>, ids: set<nat>)
      ensures Valid() && pool == pages && procs.Keys == ids
      ensures |table| == SHM_SLOTS && forall i :: 0 <= i < |table| ==> table[i] == NOREGION
      ensures forall id :: id in ids ==> procs[id].sz == 0 && Unattached(procs[id])
    {
      table := seq(SHM_SLOTS, i => NOREGION);
      procs := map id | id in ids :: Proc(0, seq(PROC_SHM_SLOTS, k => NOATTACH), map[]);
      pool := pages;
      home := map x | x in pages :: Free;
      who := seq(SHM_SLOTS, i => {});
    }

    method Kalloc() returns (ok: bool, x: nat)
      requires Valid()
      modifies `pool, `home
      ensures Valid() && (ok <==> old(pool) != {})
      ensures !ok ==> pool == old(pool) && home == old(home)
      ensures ok ==> x in old(pool) && pool == old(pool) - {x} && home == old(home)[x := Held]
    {
      if pool == {} {
        return false, 0;
      }
      x :| x in pool;
      HomeInv(View(), home[x := Held]);
      pool := pool - {x};
      home := home[x := Held];
      return true, x;
    }

    method Kfree(x: nat)
      requires Valid() && x in home && home[x] == Held
      modifies `pool, `home
      ensures Valid() && pool == old(pool) + {x} && home == old(home)[x := Free]
    {
      HomeInv(View(), home[x := Free]);
      pool := pool + {x};
      home := home[x := Free];
    }

    /** Pages for a new region; on failure all go back. */
    method AllocPages(n: nat) returns (ok: bool, ps: seq<nat>)
      requires Valid()
      modifies `pool, `home
      ensures Valid() && home.Keys == old(home).Keys
      ensures !ok ==> pool == old(pool) && home == old(home)
      ensures ok ==> |ps| == n && Took(old(home), home, ps)
      ensures ok ==> Without(pool, old(pool), ps)
      ensures ok <==> n <= |old(pool)|
    {
      ps := [];
      while |ps| < n
        invariant Valid() && |ps| <= n && Took(old(home), home, ps) && home.Keys == old(home).Keys
        invariant |pool| + |ps| == |old(pool)|
      {
        ghost var h := home;
        var x;
        ok, x := Kalloc();
        if !ok {
          FreePages(ps, old(home));
          return false, [];
        }
        TookMore(old(home), h, ps, x);
        ps := ps + [x];
      }
      return true, ps;
    }

    method FreePages(ps: seq<nat>, ghost h: map<nat, Home>)
      requires Valid() && Took(h, home, ps) && home.Keys == h.Keys
      modifies `pool, `home
      ensures Valid() && home == h
    {
      var k := 0;
      while k < |ps|
        invariant k <= |ps| && Valid() && Took(h, home, ps[k..]) && home.Keys == h.Keys
      {
        ghost var g, rest := home, ps[k..];
        assert rest[0] == ps[k] && rest[1..] == ps[k + 1..];
        Kfree(ps[k]);
        TookLess(h, g, rest);
        k := k + 1;
      }
    }

    method FindRegion(key: nat) returns (i: nat)
      ensures i == Slot(table, key)
    {
      i := 0;
      while i < |table|
        invariant i <= |table| && forall j :: 0 <= j < i ==> table[j].key != key
      {
        if table[i].key == key {
          return;
        }
        i := i + 1;
      }
    }

    method FindRecord(id: nat, key: nat) returns (k: nat)
      requires id in procs
      ensures k == Index(procs[id].shm, key)
    {
      k := 0;
      while k < |procs[id].shm|
        invariant k <= |procs[id].shm| && forall j :: 0 <= j < k ==> procs[id].shm[j].key != key
      {
        if procs[id].shm[k].key == key {
          return;
        }
        k := k + 1;
      }
    }

    /** The region of the key, a new one if there is none; SHM_SLOTS if it cannot be made. */
    method FindOrCreate(key: nat, npages: nat) returns (i: nat)
      requires Valid() && key != 0 && 0 < npages <= SHM_MAXPGS
      modifies `table, `pool, `home
      ensures Valid() && i <= SHM_SLOTS && (i < SHM_SLOTS ==> table[i].key == key && i == Slot(table, key))
      ensures Slot(old(table), key) < SHM_SLOTS ==> unchanged(this) && i == Slot(table, key)
      ensures i == SHM_SLOTS ==> unchanged(this)
      ensures i == SHM_SLOTS <==>
        Slot(old(table), key) == SHM_SLOTS && (Slot(old(table), 0) == SHM_SLOTS || npages > |old(pool)|)
      ensures Slot(old(table), key) == SHM_SLOTS > i ==>
        i == Slot(old(table), 0) && |table[i].pages| == npages && Without(pool, old(pool), table[i].pages)
      ensures Slot(old(table), key) == SHM_SLOTS > i ==> table == old(table)[i := Region(key, table[i].pages, 0)]
      ensures SameRegions(old(table), table)
    {
      i := FindRegion(key);
      if i == SHM_SLOTS {
        i := FindRegion(0);
        if i < SHM_SLOTS {
          var ok, ps := AllocPages(npages);
          if !ok {
            return SHM_SLOTS;
          }
          CreateInv(View(), i, key, ps);
          forall k | 0 <= k < |ps| ensures Settle(home, i, ps)[ps[k]] == In(i, k) {
            SettleIs(home, i, ps, k);
          }
          table := table[i := Region(key, ps, 0)];
          home := Settle(home, i, ps);
        }
      }
    }

    /** The loop that maps the region, and its way back when a table cannot be had for page `room`. */
    method MapRegion(maps: map<nat, nat>, v: nat, ps: seq<nat>, room: nat) returns (ok: bool, m: map<nat, nat>)
      requires forall y :: v <= y < v + |ps| ==> y !in maps
      ensures ok <==> |ps| <= room
      ensures m == if ok then MapAll(maps, v, ps) else maps
    {
      m := maps;
      var j := 0;
      while j < |ps|
        invariant j <= |ps| && j <= room && m == MapAll(maps, v, ps[..j])
      {
        if j >= room {
          m := map y | y in m && !(v <= y < v + j) :: m[y];
          return false, m;
        }
        assert ps[..j + 1][..j] == ps[..j];
        m := m[v + j := ps[j]];
        j := j + 1;
      }
      assert ps[..j] == ps;
      return true, m;
    }

    /** The part of shm_open() that attaches process id to the region in slot i. */
    method AttachProc(id: nat, i: nat, room: nat) returns (r: int, ghost k: nat)
      requires Valid() && id in procs && i < SHM_SLOTS && table[i].key != 0
      modifies `table, `procs, `who
      ensures Valid() && id in procs && procs == old(procs)[id := procs[id]]
      ensures r == -1 ==> unchanged(this)
      ensures r == -1 <==> !CanAttach(old(procs)[id], old(table)[i].key, |old(table)[i].pages|, room)
      ensures r != -1 ==> k < PROC_SHM_SLOTS && procs[id].shm[k].key == table[i].key && r == procs[id].shm[k].uva
      ensures r != -1 ==>
        if Index(old(procs)[id].shm, old(table)[i].key) < PROC_SHM_SLOTS then unchanged(this)
        else Entered(old(procs)[id], procs[id], old(table), table, k, i)
      ensures SameRegions(old(table), table) && Slot(table, old(table)[i].key) == Slot(old(table), old(table)[i].key)
    {
      var key := table[i].key;
      var l := FindRecord(id, key);
      if l < PROC_SHM_SLOTS {
        return procs[id].shm[l].uva, l;
      }
      l := FindRecord(id, 0);
      if l == PROC_SHM_SLOTS {
        return -1, 0;
      }
      var p := procs[id];
      var uva := PageRoundUp(p.sz);
      NothingAbove(p, uva / PGSIZE);
      var size := |table[i].pages| * PGSIZE;
      if uva + size > TRAPFRAME {
        return -1, 0;
      }
      var ok, m := MapRegion(p.maps, uva / PGSIZE, table[i].pages, room);
      if !ok {
        return -1, 0;
      }
      Enter(id, l, i, uva, m);
      SlotSame(old(table), i, table[i], key);
      return uva, l;
    }

    /** The last lines of shm_open(), when the pages are mapped. */
    method Enter(id: nat, k: nat, i: nat, uva: nat, m: map<nat, nat>)
      requires Valid() && id in procs && k < PROC_SHM_SLOTS && procs[id].shm[k].key == 0
      requires i < SHM_SLOTS && table[i].key != 0 && Index(procs[id].shm, table[i].key) == PROC_SHM_SLOTS
      requires uva == PageRoundUp(procs[id].sz) && m == MapAll(procs[id].maps, uva / PGSIZE, table[i].pages)
      modifies `table, `procs, `who
      ensures Valid() && id in procs && procs == old(procs)[id := procs[id]]
      ensures Entered(old(procs)[id], procs[id], old(table), table, k, i)
    {
      AttachInv(View(), id, k, i);
      JoinedGains(procs[id], k, table[i]);
      Record(id, k, i, uva, m);
    }

    method Record(id: nat, k: nat, i: nat, uva: nat, m: map<nat, nat>)
      requires id in procs && k < |procs[id].shm| && i < |table| && i < |who|
      requires uva == PageRoundUp(procs[id].sz) && m == MapAll(procs[id].maps, uva / PGSIZE, table[i].pages)
      modifies `table, `procs, `who
      ensures View() == AttachTo(old(View()), id, k, i)
    {
      var p, r := procs[id], table[i];
      var q := Proc(uva + |r.pages| * PGSIZE, p.shm[k := Attach(r.key, uva, |r.pages|)], m);
      assert q == Joined(p, k, r);
      procs := procs[id := q];
      table := table[i := r.(refcount := r.refcount + 1)];
      who := who[i := who[i] + {id}];
    }

    /**
      `room` is how many pages can be mapped before page-table pages run out.  An attempt that
      finds no way to attach leaves a region that it has made, without attachments.
     */
    method Open(id: nat, key: int, size: int, room: nat) returns (r: int, ghost k: nat)
      requires Valid() && id in procs && size <= MAXSIZE
      modifies this
      ensures Valid() && id in procs && procs == old(procs)[id := procs[id]]
      ensures r == -1 <==> Fails(old(table), old(procs)[id], |old(pool)|, key, size, room)
      ensures r == -1 ==> procs == old(procs) && who == old(who)
      ensures r == -1 && !Strays(old(table), old(procs)[id], |old(pool)|, key, size, room) ==> unchanged(this)
      ensures Strays(old(table), old(procs)[id], |old(pool)|, key, size, room) ==> var i := Slot(old(table), 0);
        && r == -1 && i < |old(table)| && i < |table| && table == old(table)[i := Region(key, table[i].pages, 0)]
        && |table[i].pages| == PagesFor(size) && Without(pool, old(pool), table[i].pages)
      ensures r != -1 ==> key > 0 && k < PROC_SHM_SLOTS && procs[id].shm[k].key == key && r == procs[id].shm[k].uva
      ensures r != -1 ==>
        if Index(old(procs)[id].shm, key) < PROC_SHM_SLOTS then procs == old(procs)
        else var i := Slot(table, key); i < |table| && Gains(old(procs)[id], procs[id], k, key, table[i].pages)
      ensures r != -1 && Slot(old(table), key) == |old(table)| ==> var i := Slot(table, key);
        i < |table| && |table[i].pages| == PagesFor(size) && Without(pool, old(pool), table[i].pages)
      ensures SameRegions(old(table), table)
    {
      if key <= 0 || size <= 0 {
        return -1, 0;
      }
      var npages := (size + PGSIZE - 1) / PGSIZE;
      if npages > SHM_MAXPGS {
        npages := SHM_MAXPGS;
      }
      var i := FindOrCreate(key, npages);
      if i == SHM_SLOTS {
        return -1, 0;
      }
      r, k := AttachProc(id, i, room);
    }

    /** Detach process id; the last one out frees the pages, and only then are they freed. */
    method Close(id: nat, key: int) returns (r: int)
      requires Valid() && id in procs
      modifies this
      ensures Valid() && id in procs && procs == old(procs)[id := procs[id]]
      ensures r == 0 <==> key > 0 && Index(old(procs)[id].shm, key) < PROC_SHM_SLOTS
      ensures r != 0 ==> r == -1 && unchanged(this)
      ensures r == 0 ==> var i := Slot(old(table), key);
        i < SHM_SLOTS && Released(old(table)[i], table, old(table), i, pool, old(pool))
      ensures r == 0 ==> var k := Index(old(procs)[id].shm, key);
        Loses(old(procs)[id], procs[id], k)
    {
      if key <= 0 {
        return -1;
      }
      var k := FindRecord(id, key);
      if k == PROC_SHM_SLOTS {
        return -1;
      }
      ghost var s := View();
      assert AttachOk(s, id, k);
      var i := FindRegion(key);
      if i == SHM_SLOTS {
        return -1;
      }
      DetachInv(s, id, k, i);
      LeftLoses(procs[id], k);
      Detach(id, k, i);
      assert RegionOk(s, i);
      if table[i].refcount <= 0 {
        FreeRegion(i);
      }
      return 0;
    }

    method Detach(id: nat, k: nat, i: nat)
      requires id in procs && k < |procs[id].shm| && i < |table| && i < |who|
      modifies `procs, `table, `who
      ensures View() == DetachFrom(old(View()), id, k, i)
    {
      var p := procs[id];
      var a := p.shm[k];
      var v := a.uva / PGSIZE;
      var m := map y | y in p.maps && !(v <= y < v + a.npages) :: p.maps[y];
      procs := procs[id := Proc(p.sz, p.shm[k := NOATTACH], m)];
      table := table[i := table[i].(refcount := table[i].refcount - 1)];
      who := who[i := who[i] - {id}];
    }

    method FreeRegion(i: nat)
      requires Valid() && i < SHM_SLOTS && table[i].key != 0 && table[i].refcount <= 0
      modifies `table, `pool, `home
      ensures Valid() && View() == Destroy(old(View()), i)
      ensures forall x :: x in pool <==> x in old(pool) || x in old(table)[i].pages
    {
      ghost var s := View();
      DestroyInv(s, i);
      RegionPages(s, i);
      var ps := table[i].pages;
      var j := 0;
      while j < |ps|
        invariant j <= |ps| && forall x :: x in pool <==> x in old(pool) || x in ps[..j]
        modifies `pool
      {
        assert forall x :: x in ps[..j + 1] <==> x in ps[..j] || x == ps[j];
        pool := pool + {ps[j]};
        j := j + 1;
      }
      assert ps[..j] == ps;
      table := table[i := NOREGION];
      home := Destroy(s, i).home;
    }

    /**
      sbrk(n): more memory is mapped only when it is used; less memory is unmapped.  The
      process does not cut off a region that it is attached to.
     */
    method Sbrk(id: nat, n: int) returns (r: int)
      requires Valid() && id in procs
      requires n < 0 <= procs[id].sz + n ==>
        forall k :: 0 <= k < |procs[id].shm| && procs[id].shm[k].key != 0 ==> End(procs[id].shm[k]) <= procs[id].sz + n
      modifies `procs
      ensures Valid() && id in procs && procs == old(procs)[id := procs[id]]
      ensures var p, sz := old(procs)[id], old(procs)[id].sz + n;
        if n >= 0 && sz > TRAPFRAME then r == -1 && procs == old(procs)
        else r == p.sz && procs[id] == (if sz < 0 then p else Resized(p, sz))
      ensures var p, sz := old(procs)[id], old(procs)[id].sz + n;
        && procs[id].sz == (if sz < 0 || r == -1 then p.sz else sz) && procs[id].shm == p.shm
        && (forall y :: y in procs[id].maps ==> y in p.maps && procs[id].maps[y] == p.maps[y])
        && (forall y :: y in p.maps && y * PGSIZE < procs[id].sz ==> y in procs[id].maps)
    {
      var p := procs[id];
      if n >= 0 && p.sz + n > TRAPFRAME {
        return -1;
      }
      if p.sz + n >= 0 {
        forall k | 0 <= k < PROC_SHM_SLOTS && p.shm[k].key != 0 ensures End(p.shm[k]) <= p.sz + n {
          assert AttachOk(View(), id, k);
        }
        ResizeInv(View(), id, p.sz + n);
        procs := procs[id := p.(sz := p.sz + n, maps := map y | y in p.maps && y * PGSIZE < p.sz + n :: p.maps[y])];
      }
      return p.sz;
    }
  }

  /**
    A call that leaves a region: a process that has grown up to the trapframe opens its first
    one.  The call fails, and the one free page is gone into a region without attachments.
   */
  method StrayCall() returns (r: int, left: Region, free: nat)
    ensures r == -1 && left.key == 7 && |left.pages| == 1 && left.refcount == 0 && free == 0
  {
    var s := new Shm({PGSIZE}, {1});
    while s.procs[1].sz < TRAPFRAME
      invariant s.Valid() && 1 in s.procs && s.procs[1].sz <= TRAPFRAME && Unattached(s.procs[1])
      invariant s.pool == {PGSIZE} && |s.table| == SHM_SLOTS
      invariant forall i :: 0 <= i < |s.table| ==> s.table[i] == NOREGION
      decreases TRAPFRAME - s.procs[1].sz
    {
      var n := TRAPFRAME - s.procs[1].sz;
      var was := s.Sbrk(1, if n > MAXSIZE then MAXSIZE else n);
    }
    assert Strays(s.table, s.procs[1], 1, 7, 1, 1);
    ghost var k;
    r, k := s.Open(1, 7, 1, 1);
    left, free := s.table[0], |s.pool|;
  }
}
