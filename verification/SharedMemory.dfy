/**
  The shared memory regions of kernel/shm.c and the processes attached to them, as values.

  `home` says for each page of the allocator whether it is free, held by the call in
  progress, or page j of the region in slot i.  `who` says which processes are attached to
  a region.
 */
module SharedMemory {
  import opened Params
  import opened Collections

  const SHM_SLOTS: nat := 8
  const SHM_MAXPGS: nat := 4
  const PROC_SHM_SLOTS: nat := 8

  datatype Region = Region(key: nat, pages: seq<nat>, refcount: int)

  datatype Attach = Attach(key: nat, uva: nat, npages: nat)

  datatype Proc = Proc(sz: nat, shm: seq<Attach>, maps: map<nat, nat>)

  datatype Home = Free | Held | In(i: nat, j: nat)

  datatype St = St(table: seq<Region>, procs: map<nat, Proc>, home: map<nat, Home>, who: seq<set<nat>>)

  const NOREGION := Region(0, [], 0)
  const NOATTACH := Attach(0, 0, 0)

  /** The region of a key; SHM_SLOTS if there is none. */
  function Slot(table: seq<Region>, key: nat): (i: nat)
    ensures i <= |table| && (i < |table| ==> table[i].key == key)
    ensures forall j :: 0 <= j < i ==> table[j].key != key
  {
    if table == [] || table[0].key == key then 0 else 1 + Slot(table[1..], key)
  }

  function Index(shm: seq<Attach>, key: nat): (k: nat)
    ensures k <= |shm| && (k < |shm| ==> shm[k].key == key)
    ensures forall j :: 0 <= j < k ==> shm[j].key != key
  {
    if shm == [] || shm[0].key == key then 0 else 1 + Index(shm[1..], key)
  }

  /** The region in slot i has its own pages, and counts its processes. */
  ghost predicate RegionOk(s: St, i: nat)
    requires |s.table| == |s.who| == SHM_SLOTS && i < SHM_SLOTS
  {
    var r := s.table[i];
    && r.refcount == |s.who[i]|
    && (if r.key == 0 then r == NOREGION
        else 0 < |r.pages| <= SHM_MAXPGS &&
             forall j :: 0 <= j < |r.pages| ==> r.pages[j] in s.home && s.home[r.pages[j]] == In(i, j))
  }

  /** Attachment a of process p: its pages are those of the region, in order. */
  ghost predicate MapsRegion(p: Proc, a: Attach, r: Region) {
    && a.npages == |r.pages| && a.uva % PGSIZE == 0 && a.uva + a.npages * PGSIZE <= p.sz
    && forall j :: 0 <= j < |r.pages| ==> Vpn(a, j) in p.maps && p.maps[Vpn(a, j)] == r.pages[j]
  }

  function Vpn(a: Attach, j: nat): nat {
    a.uva / PGSIZE + j
  }

  ghost predicate AttachOk(s: St, id: nat, k: nat)
    requires |s.table| == |s.who| == SHM_SLOTS && id in s.procs && k < |s.procs[id].shm|
  {
    var a := s.procs[id].shm[k];
    a.key != 0 ==>
      var i := Slot(s.table, a.key);
      i < SHM_SLOTS && id in s.who[i] && MapsRegion(s.procs[id], a, s.table[i])
  }

  /** Attachments of one process have different keys and do not overlap. */
  ghost predicate Separate(p: Proc) {
    forall k, l :: 0 <= k < l < |p.shm| && p.shm[k].key != 0 && p.shm[l].key != 0 ==>
      p.shm[k].key != p.shm[l].key && Disjoint(p.shm[k], p.shm[l])
  }

  /** All that is mapped lies below the size. */
  ghost predicate Within(p: Proc) {
    forall y :: y in p.maps ==> y * PGSIZE < p.sz
  }

  /** Attachment a has page y. */
  predicate Has(a: Attach, y: nat) {
    a.key != 0 && a.uva / PGSIZE <= y < a.uva / PGSIZE + a.npages
  }

  /** All that is mapped belongs to an attachment. */
  ghost predicate Accounted(p: Proc) {
    forall y :: y in p.maps ==> exists k :: 0 <= k < |p.shm| && Has(p.shm[k], y)
  }

  ghost predicate Disjoint(a: Attach, b: Attach) {
    a.uva + a.npages * PGSIZE <= b.uva || b.uva + b.npages * PGSIZE <= a.uva
  }

  ghost predicate HomeOk(s: St, x: nat)
    requires x in s.home && |s.table| == SHM_SLOTS
  {
    s.home[x].In? ==>
      var i, j := s.home[x].i, s.home[x].j;
      i < SHM_SLOTS && s.table[i].key != 0 && j < |s.table[i].pages| && s.table[i].pages[j] == x
  }

  /** Who is attached to a region has a record of it. */
  ghost predicate WhoOk(s: St, i: nat, id: nat)
    requires |s.table| == |s.who| == SHM_SLOTS && i < SHM_SLOTS
  {
    id in s.who[i] ==> s.table[i].key != 0 && id in s.procs && Index(s.procs[id].shm, s.table[i].key) < PROC_SHM_SLOTS
  }

  ghost predicate Inv(s: St) {
    && |s.table| == |s.who| == SHM_SLOTS
    && (forall i {:trigger RegionOk(s, i)} :: 0 <= i < SHM_SLOTS ==> RegionOk(s, i))
    && (forall i, j :: 0 <= i < j < SHM_SLOTS && s.table[i].key != 0 ==> s.table[i].key != s.table[j].key)
    && (forall x {:trigger HomeOk(s, x)} :: x in s.home ==> HomeOk(s, x))
    && (forall id :: id in s.procs ==>
          |s.procs[id].shm| == PROC_SHM_SLOTS && Separate(s.procs[id]) && Within(s.procs[id]) && Accounted(s.procs[id]))
    && (forall id, k {:trigger AttachOk(s, id, k)} :: id in s.procs && 0 <= k < PROC_SHM_SLOTS ==> AttachOk(s, id, k))
    && (forall i, id {:trigger WhoOk(s, i, id)} :: 0 <= i < SHM_SLOTS ==> WhoOk(s, i, id))
  }

  // --- A region comes ---

  /** Pages ps are page 0, 1, ... of slot i. */
  function Settle(home: map<nat, Home>, i: nat, ps: seq<nat>): (h: map<nat, Home>)
    ensures forall x :: x in h <==> x in home || x in ps
    ensures forall x :: x in h && x !in ps ==> h[x] == home[x]
  {
    if ps == [] then home else Settle(home, i, ps[..|ps| - 1])[ps[|ps| - 1] := In(i, |ps| - 1)]
  }

  lemma {:induction false} SettleIs(home: map<nat, Home>, i: nat, ps: seq<nat>, j: nat)
    requires j < |ps| && Distinct(ps)
    ensures Settle(home, i, ps)[ps[j]] == In(i, j)
  {
    if j < |ps| - 1 {
      SettleIs(home, i, ps[..|ps| - 1], j);
      assert ps[..|ps| - 1][j] == ps[j];
    }
  }

  function Create(s: St, i: nat, key: nat, ps: seq<nat>): St
    requires i < |s.table|
  {
    s.(table := s.table[i := Region(key, ps, 0)], home := Settle(s.home, i, ps))
  }

  /** Held pages become a region with a new key and nobody attached. */
  lemma CreateInv(s: St, i: nat, key: nat, ps: seq<nat>)
    requires Inv(s) && i < SHM_SLOTS && s.table[i].key == 0 && key != 0 && 0 < |ps| <= SHM_MAXPGS
    requires forall j :: 0 <= j < SHM_SLOTS ==> s.table[j].key != key
    requires forall k :: 0 <= k < |ps| ==> ps[k] in s.home && s.home[ps[k]] == Held
    requires Distinct(ps)
    ensures Inv(Create(s, i, key, ps))
  {
    var t := Create(s, i, key, ps);
    forall k | 0 <= k < |ps| ensures ps[k] in t.home && t.home[ps[k]] == In(i, k) {
      SettleIs(s.home, i, ps, k);
    }
    forall g | 0 <= g < SHM_SLOTS ensures RegionOk(t, g) {
      assert RegionOk(s, g);
    }
    forall x | x in t.home ensures HomeOk(t, x) {
      if x !in ps { assert HomeOk(s, x); }
    }
    forall id, k | id in t.procs && 0 <= k < PROC_SHM_SLOTS ensures AttachOk(t, id, k) {
      assert AttachOk(s, id, k);
      if s.procs[id].shm[k].key != 0 { SlotOther(s.table, i, Region(key, ps, 0), s.procs[id].shm[k].key); }
    }
    forall g, id | 0 <= g < SHM_SLOTS ensures WhoOk(t, g, id) {
      assert WhoOk(s, g, id);
    }
  }

  /** Changing another region does not change where a key is found. */
  lemma {:induction false} SlotOther(table: seq<Region>, i: nat, r: Region, key: nat)
    requires i < |table| && table[i].key != key && r.key != key
    ensures Slot(table[i := r], key) == Slot(table, key)
  {
    if i == 0 {
      assert table[i := r][1..] == table[1..];
    } else if table[0].key != key {
      SlotOther(table[1..], i - 1, r, key);
      assert table[i := r][1..] == table[1..][i - 1 := r];
    }
  }

  lemma {:induction false} IndexOther(shm: seq<Attach>, k: nat, a: Attach, key: nat)
    requires k < |shm| && shm[k].key != key && a.key != key
    ensures Index(shm[k := a], key) == Index(shm, key)
  {
    if k == 0 {
      assert shm[k := a][1..] == shm[1..];
    } else if shm[0].key != key {
      IndexOther(shm[1..], k - 1, a, key);
      assert shm[k := a][1..] == shm[1..][k - 1 := a];
    }
  }

  /** In a table without two regions of a key, a region is found where it is. */
  lemma SlotAt(s: St, i: nat)
    requires Inv(s) && i < SHM_SLOTS && s.table[i].key != 0
    ensures Slot(s.table, s.table[i].key) == i
  {
  }

  // --- A process comes ---

  function MapAll(maps: map<nat, nat>, v: nat, ps: seq<nat>): (m: map<nat, nat>)
    ensures forall y :: y in m <==> y in maps || v <= y < v + |ps|
    ensures forall y :: y in m ==> m[y] == if v <= y < v + |ps| then ps[y - v] else maps[y]
  {
    if ps == [] then maps else MapAll(maps, v, ps[..|ps| - 1])[v + |ps| - 1 := ps[|ps| - 1]]
  }

  function Joined(p: Proc, k: nat, r: Region): Proc
    requires k < |p.shm|
  {
    var uva := PageRoundUp(p.sz);
    Proc(uva + |r.pages| * PGSIZE, p.shm[k := Attach(r.key, uva, |r.pages|)], MapAll(p.maps, uva / PGSIZE, r.pages))
  }

  function AttachTo(s: St, id: nat, k: nat, i: nat): St
    requires id in s.procs && k < |s.procs[id].shm| && i < |s.table| && i < |s.who|
  {
    s.(table := s.table[i := s.table[i].(refcount := s.table[i].refcount + 1)],
       procs := s.procs[id := Joined(s.procs[id], k, s.table[i])],
       who := s.who[i := s.who[i] + {id}])
  }

  lemma JoinedKeeps(p: Proc, k: nat, r: Region, a: Attach, q: Region)
    requires k < |p.shm| && MapsRegion(p, a, q)
    ensures MapsRegion(Joined(p, k, r), a, q)
    ensures Disjoint(a, Joined(p, k, r).shm[k]) && Disjoint(Joined(p, k, r).shm[k], a)
  {
    var m := Joined(p, k, r);
    forall j | 0 <= j < |q.pages| ensures Vpn(a, j) in m.maps && m.maps[Vpn(a, j)] == q.pages[j] {
      assert Vpn(a, j) in p.maps;
    }
  }

  lemma JoinedAccounted(p: Proc, k: nat, r: Region)
    requires k < |p.shm| && p.shm[k].key == 0 && r.key != 0 && Accounted(p)
    ensures Accounted(Joined(p, k, r))
  {
    var q := Joined(p, k, r);
    forall y | y in q.maps ensures exists l :: 0 <= l < |q.shm| && Has(q.shm[l], y) {
      if Has(q.shm[k], y) {
      } else {
        assert y in p.maps;
        var l :| 0 <= l < |p.shm| && Has(p.shm[l], y);
        assert q.shm[l] == p.shm[l];
      }
    }
  }

  /** From m to n the pages from v on are mapped to ps, and all else stays. */
  ghost predicate Mapped(m: map<nat, nat>, n: map<nat, nat>, v: nat, ps: seq<nat>) {
    && (forall j :: 0 <= j < |ps| ==> v + j in n && n[v + j] == ps[j])
    && (forall y :: y in m && !(v <= y < v + |ps|) ==> y in n && n[y] == m[y])
    && (forall y :: y in n ==> y in m || v <= y < v + |ps|)
  }

  lemma MapAllMaps(m: map<nat, nat>, v: nat, ps: seq<nat>)
    ensures Mapped(m, MapAll(m, v, ps), v, ps)
  {
  }

  /** From p to q record k is a new attachment to a region, mapped at the end of the memory; all else stays. */
  ghost predicate Gains(p: Proc, q: Proc, k: nat, key: nat, ps: seq<nat>) {
    && k < |p.shm| == |q.shm| && q.shm[k] == Attach(key, PageRoundUp(p.sz), |ps|)
    && q.sz == PageRoundUp(p.sz) + |ps| * PGSIZE
    && (forall l :: 0 <= l < |p.shm| && l != k ==> q.shm[l] == p.shm[l])
    && Mapped(p.maps, q.maps, PageRoundUp(p.sz) / PGSIZE, ps)
  }

  lemma JoinedGains(p: Proc, k: nat, r: Region)
    requires k < |p.shm|
    ensures Gains(p, Joined(p, k, r), k, r.key, r.pages)
  {
    MapAllMaps(p.maps, PageRoundUp(p.sz) / PGSIZE, r.pages);
  }

  lemma JoinedMaps(p: Proc, k: nat, r: Region)
    requires k < |p.shm|
    ensures MapsRegion(Joined(p, k, r), Joined(p, k, r).shm[k], r)
  {
  }

  lemma SlotSame(table: seq<Region>, i: nat, r: Region, key: nat)
    requires i < |table| && r.key == table[i].key
    ensures Slot(table[i := r], key) == Slot(table, key)
  {
    var t := table[i := r];
    assert forall j :: 0 <= j < |table| ==> t[j].key == table[j].key;
  }

  lemma AttachInv(s: St, id: nat, k: nat, i: nat)
    requires Inv(s) && id in s.procs && k < PROC_SHM_SLOTS && s.procs[id].shm[k].key == 0
    requires i < SHM_SLOTS && s.table[i].key != 0 && Index(s.procs[id].shm, s.table[i].key) == PROC_SHM_SLOTS
    ensures Inv(AttachTo(s, id, k, i)) && id !in s.who[i]
  {
    var t := AttachTo(s, id, k, i);
    assert WhoOk(s, i, id);
    forall g | 0 <= g < SHM_SLOTS ensures RegionOk(t, g) {
      assert RegionOk(s, g);
    }
    forall x | x in t.home ensures HomeOk(t, x) {
      assert HomeOk(s, x);
    }
    forall d, l | d in t.procs && 0 <= l < PROC_SHM_SLOTS ensures AttachOk(t, d, l) {
      AttachSame(s, id, k, i, d, l);
    }
    forall g, d | 0 <= g < SHM_SLOTS ensures WhoOk(t, g, d) {
      AttachWho(s, id, k, i, g, d);
    }
    AttachSeparate(s, id, k, i);
    JoinedAccounted(s.procs[id], k, s.table[i]);
  }

  lemma AttachWho(s: St, id: nat, k: nat, i: nat, g: nat, d: nat)
    requires Inv(s) && id in s.procs && k < PROC_SHM_SLOTS && s.procs[id].shm[k].key == 0
    requires i < SHM_SLOTS && s.table[i].key != 0 && g < SHM_SLOTS
    ensures WhoOk(AttachTo(s, id, k, i), g, d)
  {
    var p, r := s.procs[id], s.table[i];
    assert WhoOk(s, g, d);
    assert Joined(p, k, r).shm[k].key == r.key;
    if d == id && g != i && d in s.who[g] {
      IndexOther(p.shm, k, Attach(r.key, PageRoundUp(p.sz), |r.pages|), s.table[g].key);
    }
  }

  lemma AttachSeparate(s: St, id: nat, k: nat, i: nat)
    requires Inv(s) && id in s.procs && k < PROC_SHM_SLOTS && i < SHM_SLOTS
    requires Index(s.procs[id].shm, s.table[i].key) == PROC_SHM_SLOTS
    ensures Separate(Joined(s.procs[id], k, s.table[i])) && Within(Joined(s.procs[id], k, s.table[i]))
  {
    var p, r := s.procs[id], s.table[i];
    assert AttachOk(s, id, k);
    var q := Joined(p, k, r);
    forall l | 0 <= l < PROC_SHM_SLOTS && l != k && p.shm[l].key != 0
      ensures p.shm[l].key != r.key && Disjoint(p.shm[l], q.shm[k]) && Disjoint(q.shm[k], p.shm[l])
    {
      assert AttachOk(s, id, l);
      JoinedKeeps(p, k, r, p.shm[l], s.table[Slot(s.table, p.shm[l].key)]);
    }
  }

  lemma AttachSame(s: St, id: nat, k: nat, i: nat, d: nat, l: nat)
    requires Inv(s) && id in s.procs && k < PROC_SHM_SLOTS && i < SHM_SLOTS && s.table[i].key != 0
    requires d in s.procs && l < PROC_SHM_SLOTS
    ensures |AttachTo(s, id, k, i).procs[d].shm| == PROC_SHM_SLOTS && AttachOk(AttachTo(s, id, k, i), d, l)
  {
    var t, p, r := AttachTo(s, id, k, i), s.procs[id], s.table[i];
    assert AttachOk(s, d, l);
    var key := t.procs[d].shm[l].key;
    SlotSame(s.table, i, t.table[i], key);
    if d == id && l == k {
      SlotAt(s, i);
      JoinedMaps(p, k, r);
    } else if d == id && key != 0 {
      JoinedKeeps(p, k, r, p.shm[l], s.table[Slot(s.table, key)]);
    }
  }

  // --- A process goes ---

  function Left(p: Proc, k: nat): Proc
    requires k < |p.shm|
  {
    var a := p.shm[k];
    var v := a.uva / PGSIZE;
    Proc(p.sz, p.shm[k := NOATTACH], map y | y in p.maps && !(v <= y < v + a.npages) :: p.maps[y])
  }

  function DetachFrom(s: St, id: nat, k: nat, i: nat): St
    requires id in s.procs && k < |s.procs[id].shm| && i < |s.table| && i < |s.who|
  {
    s.(table := s.table[i := s.table[i].(refcount := s.table[i].refcount - 1)],
       procs := s.procs[id := Left(s.procs[id], k)],
       who := s.who[i := s.who[i] - {id}])
  }

  lemma LeftAccounted(p: Proc, k: nat)
    requires k < |p.shm| && p.shm[k].key != 0 && Accounted(p)
    ensures Accounted(Left(p, k))
  {
    var q := Left(p, k);
    forall y | y in q.maps ensures exists l :: 0 <= l < |q.shm| && Has(q.shm[l], y) {
      var l :| 0 <= l < |p.shm| && Has(p.shm[l], y);
      assert q.shm[l] == p.shm[l];
    }
  }

  /** From p to q record k goes with all its mappings; all else stays. */
  ghost predicate Loses(p: Proc, q: Proc, k: nat) {
    && k < |p.shm| == |q.shm| && q.shm[k].key == 0 && q.sz == p.sz
    && (forall l :: 0 <= l < |p.shm| && l != k ==> q.shm[l] == p.shm[l])
    && (forall j :: 0 <= j < p.shm[k].npages ==> Vpn(p.shm[k], j) !in q.maps)
    && (forall y :: y in q.maps ==> y in p.maps && q.maps[y] == p.maps[y])
    && (forall y :: y in p.maps && !Has(p.shm[k], y) ==> y in q.maps)
  }

  lemma LeftLoses(p: Proc, k: nat)
    requires k < |p.shm| && p.shm[k].key != 0
    ensures Loses(p, Left(p, k), k)
  {
  }

  lemma LeftKeeps(p: Proc, k: nat, a: Attach, q: Region)
    requires k < |p.shm| && MapsRegion(p, a, q) && p.shm[k].uva % PGSIZE == 0 && Disjoint(a, p.shm[k])
    ensures MapsRegion(Left(p, k), a, q)
  {
    var m := Left(p, k);
    forall j | 0 <= j < |q.pages| ensures Vpn(a, j) in m.maps && m.maps[Vpn(a, j)] == q.pages[j] {
      assert Vpn(a, j) in p.maps;
    }
  }

  lemma DetachSame(s: St, id: nat, k: nat, i: nat, d: nat, l: nat)
    requires Inv(s) && id in s.procs && k < PROC_SHM_SLOTS && i < SHM_SLOTS
    requires s.procs[id].shm[k].key == s.table[i].key != 0 && d in s.procs && l < PROC_SHM_SLOTS
    ensures |DetachFrom(s, id, k, i).procs[d].shm| == PROC_SHM_SLOTS && AttachOk(DetachFrom(s, id, k, i), d, l)
  {
    var t, p := DetachFrom(s, id, k, i), s.procs[id];
    assert AttachOk(s, d, l) && AttachOk(s, id, k);
    var key := t.procs[d].shm[l].key;
    SlotSame(s.table, i, t.table[i], key);
    if d == id && key != 0 {
      assert Disjoint(p.shm[l], p.shm[k]) && key != p.shm[k].key;
      LeftKeeps(p, k, p.shm[l], s.table[Slot(s.table, key)]);
    }
  }

  lemma DetachInv(s: St, id: nat, k: nat, i: nat)
    requires Inv(s) && id in s.procs && k < PROC_SHM_SLOTS && i < SHM_SLOTS
    requires s.procs[id].shm[k].key == s.table[i].key != 0
    ensures Inv(DetachFrom(s, id, k, i)) && id in s.who[i]
  {
    var t, p := DetachFrom(s, id, k, i), s.procs[id];
    assert AttachOk(s, id, k);
    SlotAt(s, i);
    LeftAccounted(p, k);
    forall g | 0 <= g < SHM_SLOTS ensures RegionOk(t, g) {
      assert RegionOk(s, g);
    }
    forall x | x in t.home ensures HomeOk(t, x) {
      assert HomeOk(s, x);
    }
    forall d, l | d in t.procs && 0 <= l < PROC_SHM_SLOTS ensures AttachOk(t, d, l) {
      DetachSame(s, id, k, i, d, l);
    }
    forall g, d | 0 <= g < SHM_SLOTS ensures WhoOk(t, g, d) {
      assert WhoOk(s, g, d);
      if d == id && d in t.who[g] { IndexOther(p.shm, k, NOATTACH, s.table[g].key); }
    }
  }

  // --- A region goes ---

  function Destroy(s: St, i: nat): St
    requires i < |s.table|
  {
    s.(table := s.table[i := NOREGION],
       home := map x | x in s.home :: if s.home[x].In? && s.home[x].i == i then Free else s.home[x])
  }

  lemma DestroyInv(s: St, i: nat)
    requires Inv(s) && i < SHM_SLOTS && s.table[i].key != 0 && s.table[i].refcount <= 0
    ensures Inv(Destroy(s, i))
  {
    var t := Destroy(s, i);
    assert RegionOk(s, i);
    assert s.who[i] == {};
    forall g | 0 <= g < SHM_SLOTS ensures RegionOk(t, g) {
      assert RegionOk(s, g);
    }
    forall x | x in t.home ensures HomeOk(t, x) {
      assert HomeOk(s, x);
    }
    forall d, l | d in t.procs && 0 <= l < PROC_SHM_SLOTS ensures AttachOk(t, d, l) {
      assert AttachOk(s, d, l);
      if s.procs[d].shm[l].key != 0 { SlotOther(s.table, i, NOREGION, s.procs[d].shm[l].key); }
    }
    forall g, d | 0 <= g < SHM_SLOTS ensures WhoOk(t, g, d) {
      assert WhoOk(s, g, d);
    }
  }

  // --- What the invariant says ---

  /** The processes with a record of the key. */
  function Attached(s: St, key: nat): set<nat> {
    set id | id in s.procs && Index(s.procs[id].shm, key) < |s.procs[id].shm|
  }

  /** The reference count is the number of these processes. */
  lemma RefcountIs(s: St, i: nat)
    requires Inv(s) && i < SHM_SLOTS && s.table[i].key != 0
    ensures s.table[i].refcount == |Attached(s, s.table[i].key)|
  {
    var attached := Attached(s, s.table[i].key);
    assert RegionOk(s, i);
    SlotAt(s, i);
    forall id ensures id in s.who[i] <==> id in attached {
      assert WhoOk(s, i, id);
      if id in attached { assert AttachOk(s, id, Index(s.procs[id].shm, s.table[i].key)); }
    }
    assert s.who[i] == attached;
  }

  /** Two processes with records of a key see the same pages in the same order. */
  lemma SamePages(s: St, id: nat, k: nat, d: nat, l: nat, j: nat)
    requires Inv(s) && id in s.procs && d in s.procs && k < PROC_SHM_SLOTS && l < PROC_SHM_SLOTS
    requires var a, b := s.procs[id].shm[k], s.procs[d].shm[l]; a.key == b.key != 0 && j < a.npages
    ensures var a, b := s.procs[id].shm[k], s.procs[d].shm[l];
      && a.npages == b.npages && Vpn(a, j) in s.procs[id].maps && Vpn(b, j) in s.procs[d].maps
      && s.procs[id].maps[Vpn(a, j)] == s.procs[d].maps[Vpn(b, j)]
  {
    assert AttachOk(s, id, k) && AttachOk(s, d, l);
  }

  /** Every page that a process maps is a page of a region that it is attached to; so no free page is mapped. */
  lemma MappedIsShared(s: St, id: nat, y: nat) returns (k: nat, i: nat, j: nat)
    requires Inv(s) && id in s.procs && y in s.procs[id].maps
    ensures k < PROC_SHM_SLOTS && i < SHM_SLOTS && s.procs[id].shm[k].key == s.table[i].key != 0
    ensures j < |s.table[i].pages| && y == Vpn(s.procs[id].shm[k], j) && s.procs[id].maps[y] == s.table[i].pages[j]
    ensures s.procs[id].maps[y] in s.home && s.home[s.procs[id].maps[y]] == In(i, j)
  {
    var p := s.procs[id];
    k :| 0 <= k < |p.shm| && Has(p.shm[k], y);
    assert AttachOk(s, id, k);
    i, j := Slot(s.table, p.shm[k].key), y - p.shm[k].uva / PGSIZE;
    assert RegionOk(s, i);
  }

  /** No page is in two regions, or twice in one. */
  lemma PagesApart(s: St, i: nat, j: nat, g: nat, h: nat)
    requires Inv(s) && i < SHM_SLOTS && g < SHM_SLOTS && s.table[i].key != 0 && s.table[g].key != 0
    requires j < |s.table[i].pages| && h < |s.table[g].pages| && s.table[i].pages[j] == s.table[g].pages[h]
    ensures i == g && j == h
  {
    assert RegionOk(s, i) && RegionOk(s, g);
  }

  /** A process with a new size: what is mapped above it goes. */
  function Resized(p: Proc, sz: nat): Proc {
    p.(sz := sz, maps := map y | y in p.maps && y * PGSIZE < sz :: p.maps[y])
  }

  lemma ResizedKeeps(p: Proc, sz: nat, a: Attach, q: Region)
    requires MapsRegion(p, a, q) && End(a) <= sz
    ensures MapsRegion(Resized(p, sz), a, q)
  {
    forall j | 0 <= j < |q.pages| ensures Vpn(a, j) * PGSIZE < sz {
    }
  }

  lemma ResizedAccounted(p: Proc, sz: nat)
    requires Accounted(p)
    ensures Accounted(Resized(p, sz))
  {
    var q := Resized(p, sz);
    forall y | y in q.maps ensures exists l :: 0 <= l < |q.shm| && Has(q.shm[l], y) {
      var l :| 0 <= l < |p.shm| && Has(p.shm[l], y);
      assert Has(q.shm[l], y);
    }
  }

  /** A process grows, or shrinks without cutting off a region. */
  lemma ResizeInv(s: St, id: nat, sz: nat)
    requires Inv(s) && id in s.procs
    requires forall k :: 0 <= k < PROC_SHM_SLOTS && s.procs[id].shm[k].key != 0 ==> End(s.procs[id].shm[k]) <= sz
    ensures Inv(s.(procs := s.procs[id := Resized(s.procs[id], sz)]))
  {
    var t := s.(procs := s.procs[id := Resized(s.procs[id], sz)]);
    ResizedAccounted(s.procs[id], sz);
    forall g | 0 <= g < SHM_SLOTS ensures RegionOk(t, g) {
      assert RegionOk(s, g);
    }
    forall x | x in t.home ensures HomeOk(t, x) {
      assert HomeOk(s, x);
    }
    forall d, l | d in t.procs && 0 <= l < PROC_SHM_SLOTS ensures AttachOk(t, d, l) {
      assert AttachOk(s, d, l);
      var a := s.procs[d].shm[l];
      if d == id && a.key != 0 { ResizedKeeps(s.procs[id], sz, a, s.table[Slot(s.table, a.key)]); }
    }
    forall g, d | 0 <= g < SHM_SLOTS ensures WhoOk(t, g, d) {
      assert WhoOk(s, g, d);
    }
  }

  /** A process whose records are all in use is attached to all regions: no slot is free either. */
  lemma RecordsSuffice(s: St, id: nat)
    requires Inv(s) && id in s.procs && Index(s.procs[id].shm, 0) == PROC_SHM_SLOTS
    ensures Slot(s.table, 0) == SHM_SLOTS
  {
    var shm, z := s.procs[id].shm, Slot(s.table, 0);
    var at := seq(PROC_SHM_SLOTS, k requires 0 <= k < PROC_SHM_SLOTS => Slot(s.table, shm[k].key));
    forall k | 0 <= k < PROC_SHM_SLOTS ensures at[k] < SHM_SLOTS && s.table[at[k]].key == shm[k].key != 0 {
      assert AttachOk(s, id, k);
    }
    if z < SHM_SLOTS {
      assert Distinct(at + [z]);
      Pigeons(at + [z], SHM_SLOTS);
    }
  }

  function End(a: Attach): nat {
    a.uva + a.npages * PGSIZE
  }

  /** A change to `home` of pages that are in no region. */
  lemma HomeInv(s: St, h: map<nat, Home>)
    requires Inv(s) && h.Keys == s.home.Keys
    requires forall x :: x in s.home ==> h[x] == s.home[x] || !(h[x].In? || s.home[x].In?)
    ensures Inv(s.(home := h))
  {
    var t := s.(home := h);
    forall g | 0 <= g < SHM_SLOTS ensures RegionOk(t, g) {
      assert RegionOk(s, g);
    }
    forall x | x in t.home ensures HomeOk(t, x) {
      assert HomeOk(s, x);
    }
    forall d, l | d in t.procs && 0 <= l < PROC_SHM_SLOTS ensures AttachOk(t, d, l) {
      assert AttachOk(s, d, l);
    }
    forall g, d | 0 <= g < SHM_SLOTS ensures WhoOk(t, g, d) {
      assert WhoOk(s, g, d);
    }
  }

  /** Pages ps were free in h and are held in g; else the two agree. */
  ghost predicate Took(h: map<nat, Home>, g: map<nat, Home>, ps: seq<nat>) {
    && Distinct(ps)
    && (forall k :: 0 <= k < |ps| ==> ps[k] in h && h[ps[k]] == Free && ps[k] in g && g[ps[k]] == Held)
    && (forall x :: x in h && x !in ps ==> x in g && g[x] == h[x])
    && (forall x :: x in g ==> x in h)
  }

  lemma TookMore(h: map<nat, Home>, g: map<nat, Home>, ps: seq<nat>, x: nat)
    requires Took(h, g, ps) && x in g && g[x] == Free
    ensures Took(h, g[x := Held], ps + [x])
  {
  }

  lemma TookLess(h: map<nat, Home>, g: map<nat, Home>, ps: seq<nat>)
    requires Took(h, g, ps) && ps != []
    ensures Took(h, g[ps[0] := Free], ps[1..])
  {
    forall x | x in h && x !in ps[1..] ensures g[ps[0] := Free][x] == h[x] {
      if x != ps[0] { assert forall k :: 0 < k < |ps| ==> ps[1..][k - 1] == ps[k]; }
    }
  }

  /** The pages of a region are those that are at home in it. */
  lemma RegionPages(s: St, i: nat)
    requires Inv(s) && i < SHM_SLOTS && s.table[i].key != 0
    ensures forall x :: x in s.home ==> (x in s.table[i].pages <==> s.home[x].In? && s.home[x].i == i)
    ensures forall x :: x in s.table[i].pages ==> x in s.home
  {
    assert RegionOk(s, i);
    forall x | x in s.home ensures x in s.table[i].pages <==> s.home[x].In? && s.home[x].i == i {
      assert HomeOk(s, x);
    }
  }
}
