/**
  The page allocator of kernel/kalloc.c and the page-table code of kernel/vm.c.

  An entry is found as a table page and an index in it.  Addresses are page aligned where
  the source demands it.
 */
module Vm {
  import opened PageTables
  import opened Params

  const MAXVA: nat := MAXVPN * PGSIZE
  const PANIC: int := -2             // stands for a panic

  const PTE_R: nat := 2
  const PTE_U: nat := 16

  function Junk(b: nat): Page {
    seq(512, i => b * 0x0101_0101_0101_0101)
  }

  /** The number of pages that sz bytes take. */
  function Pages(sz: nat): nat {
    PageRoundUp(sz) / PGSIZE
  }

  predicate Spans(sz: nat, n: nat) {
    sz <= n * PGSIZE && (n > 0 ==> (n - 1) * PGSIZE < sz)
  }

  lemma PagesIs(sz: nat)
    ensures PageRoundUp(sz) == Pages(sz) * PGSIZE && Spans(sz, Pages(sz))
  {
  }

  lemma SpansEnd(sz: nat, n: nat, k: nat)
    requires Spans(sz, n) && k <= n && sz <= k * PGSIZE
    ensures k == n
  {
  }

  lemma WholePages(n: nat)
    ensures Pages(n * PGSIZE) == n
  {
  }

  /** The tables below the root that walk() has come to. */
  function Passed(root: nat, level: nat, v: nat): set<Node>
    requires level <= 2
  {
    if level == 2 then {} else if level == 1 then {Place(root, 1, v)} else Path(root, v)
  }

  /** Table n was there, or has come and taken a page. */
  ghost predicate Arrives(s: St, t: St, n: Node) {
    if n in s.at then t == s else t.at.Keys == s.at.Keys + {n} && |t.free| + 1 == |s.free|
  }

  lemma SpentDown(s: St, t: St, u: St, root: nat, level: nat, next: nat, v: nat)
    requires 0 < level <= 2 && next == level - 1
    requires Spent(s, t, Passed(root, level, v), 0) && Arrives(t, u, Place(root, next, v))
    ensures Spent(s, u, Passed(root, next, v), 0)
  {
    var n := Place(root, next, v);
    SpentTable(t, u, n);
    MorePassed(root, level, next, v);
    SpentMore(s, t, u, Passed(root, level, v), 0, {n}, 0, Passed(root, next, v), 0);
  }

  lemma MorePassed(root: nat, level: nat, next: nat, v: nat)
    requires 0 < level <= 2 && next == level - 1
    ensures Passed(root, next, v) == Passed(root, level, v) + {Place(root, next, v)}
  {
  }

  /** walk() finds no page for its next table. */
  lemma NoTable(s: St, t: St, root: nat, level: nat, next: nat, v: nat)
    requires 0 < level <= 2 && next == level - 1 && Spent(s, t, Passed(root, level, v), 0) && t.free == []
    requires Place(root, next, v) !in t.at
    ensures Lacks(s, Path(root, v), 0)
  {
    var c, all := Place(root, next, v), Passed(root, next, v);
    NoneLeft(t, c);
    MorePassed(root, level, next, v);
    SpentOut(s, t, Passed(root, level, v), 0, {c}, 0, all, 0);
    LacksMore(s, all, 0, Path(root, v), 0);
  }

  lemma NoneLeft(t: St, n: Node)
    requires t.free == [] && n !in t.at
    ensures Lacks(t, {n}, 0)
  {
    assert |t.at.Keys + {n}| == |t.at.Keys| + 1 == |t.at| + 1;
  }

  lemma NoPage(s: St, tables: set<Node>)
    requires s.free == []
    ensures Lacks(s, tables, 1)
  {
    FewerNodes(s.at.Keys, s.at.Keys + tables);
  }

  lemma PageAt(va: nat, size: nat, k: nat)
    requires va % PGSIZE == 0 && size % PGSIZE == 0 && k < size / PGSIZE
    ensures (va + k * PGSIZE) / PGSIZE == va / PGSIZE + k && va + k * PGSIZE <= va + size - PGSIZE
    ensures va + k * PGSIZE == va + size - PGSIZE <==> k + 1 == size / PGSIZE
  {
  }

  /** No page from v to x is refused. */
  ghost predicate Clear(s: St, root: nat, v: nat, x: nat) {
    forall y :: v <= y < x ==> !Refused(s, root, y)
  }

  lemma ClearMore(s: St, root: nat, v: nat, x: nat)
    requires Clear(s, root, v, x) && !Refused(s, root, x)
    ensures Clear(s, root, v, x + 1)
  {
  }

  /** mappages() over the pages from v to e ends with r when all below x are mapped. */
  ghost predicate Mapped(s: St, root: nat, v: nat, e: nat, x: nat, r: int, free: seq<nat>) {
    && x <= e && Clear(s, root, v, x)
    && if x == e then r == 0 else if Refused(s, root, x) then r == PANIC
       else r == -1 && free == [] && ShortAt(s, root, v, x)
  }

  predicate Within(p: nat, start: nat, end: nat) {
    p % PGSIZE == 0 && start <= p && p + PGSIZE <= end
  }

  lemma NextPage(p: nat, x: nat)
    requires p % PGSIZE == 0 && x % PGSIZE == 0 && p < x
    ensures p + PGSIZE <= x
  {
  }

  class Memory {
    var mem: map<nat, Page>
    var freelist: nat
    ghost var free: seq<nat>
    ghost var use: map<nat, Use>
    ghost var at: map<Node, nat>

    ghost function View(): St
      reads this
    {
      St(mem, free, use, at)
    }

    ghost predicate Listed()
      reads this
    {
      freelist == if free == [] then 0 else free[0]
    }

    ghost predicate Valid()
      reads this
    {
      Inv(View()) && Listed()
    }

    /** The pages between `end` and PHYSTOP, none of them on the list yet. */
    constructor (pages: set<nat>)
      requires forall p :: p in pages ==> p > 0 && p % PGSIZE == 0
      ensures Valid() && free == [] && at == map[] && use.Keys == pages && forall p :: p in pages ==> use[p] == Held
    {
      mem := map p | p in pages :: Zeros();
      freelist := 0;
      free, at := [], map[];
      use := map p | p in pages :: Held;
    }

    method Kalloc() returns (p: nat)
      requires Valid()
      modifies this
      ensures Valid() && (p == 0 <==> old(free) == [])
      ensures p == 0 ==> unchanged(this)
      ensures p != 0 ==> p == old(free)[0] && View() == Take(old(View()), Junk(5))
    {
      p := freelist;
      if p != 0 {
        TakeInv(View(), Junk(5), {});
        assert NextOk(View(), 0);
        freelist := mem[p][0];
        mem := mem[p := Junk(5)];
        free, use := free[1..], use[p := Held];
      } else {
        assert free != [] ==> UseOk(View(), free[0]);
      }
    }

    method Kfree(p: nat, ghost gone: set<Node>)
      requires InvBut(View(), gone) && Listed() && p in use && use[p] == Held
      modifies this
      ensures InvBut(View(), gone) && Listed() && View() == Give(old(View()), p, Junk(1))
    {
      GiveInv(View(), p, Junk(1), gone);
      Release(p);
    }

    /** The statements of kfree(). */
    method Release(p: nat)
      requires Listed()
      modifies this
      ensures Listed() && View() == Give(old(View()), p, Junk(1))
    {
      var r := Junk(1);
      r := r[0 := freelist];
      mem, freelist := mem[p := r], p;
      free, use := [p] + free, use[p := Free];
    }

    /** Every whole page of the range goes to the list. */
    method Freerange(start: nat, end: nat)
      requires Valid() && forall p :: p in use <==> Within(p, start, end)
      requires forall p :: p in use ==> use[p] == Held
      modifies this
      ensures Valid() && at == old(at) && use.Keys == old(use).Keys && forall p :: p in use ==> use[p] == Free
    {
      RoundUpIs(start);
      var p := PageRoundUp(start);
      while p + PGSIZE <= end
        invariant Valid() && p % PGSIZE == 0 && start <= p && at == old(at) && use.Keys == old(use).Keys
        invariant forall x :: x in use ==> use[x] == if x < p then Free else Held
        decreases end - p
      {
        assert Within(p, start, end);
        FreeNext(p);
        p := p + PGSIZE;
      }
      assert forall x :: x in use ==> Within(x, start, end);
    }

    /** One turn of the loop of freerange(). */
    method FreeNext(p: nat)
      requires Valid() && p in use && p % PGSIZE == 0
      requires forall x :: x in use ==> use[x] == if x < p then Free else Held
      modifies this
      ensures Valid() && at == old(at) && use.Keys == old(use).Keys
      ensures forall x :: x in use ==> use[x] == if x < p + PGSIZE then Free else Held
    {
      forall x | x in use && x > p ensures x >= p + PGSIZE {
        assert UseOk(View(), x);
        NextPage(p, x);
      }
      Kfree(p, {});
    }

    method Uvmcreate() returns (root: nat)
      requires Valid()
      modifies this
      ensures Valid() && (root == 0 <==> old(free) == [])
      ensures root == 0 ==> unchanged(this)
      ensures root != 0 ==> Node(root, 2, 0) in at && Node(root, 2, 0) !in old(at)
      ensures root != 0 ==> forall r, v: nat :: Leaf(View(), r, v) == Leaf(old(View()), r, v)
    {
      ghost var s := View();
      root := Kalloc();
      if root != 0 {
        TakeInv(s, Junk(5), {});
        AddRootInv(View(), root);
        ghost var n := Node(root, 2, 0);
        ghost var t := View();
        mem := mem[root := Zeros()];
        use, at := use[root := Table(n)], at[n := root];
        assert View() == AddRoot(t, root);
      }
    }

    /** A new table c for entry j of table t. */
    method NewTable(t: nat, j: nat, ghost c: Node) returns (p: nat)
      requires Valid() && c !in at && c.lvl < 2 && (c.lvl == 0 ==> c.q < MAXVPN / 512) && j == c.q % 512
      requires Parent(c) in at && at[Parent(c)] == t
      modifies this
      ensures Valid() && Keeps(old(View()), View())
      ensures p == 0 ==> unchanged(this) && free == []
      ensures p != 0 ==> c in at && at[c] == p && at.Keys == old(at).Keys + {c} && |free| + 1 == |old(free)|
    {
      ghost var s := View();
      p := Kalloc();
      if p == 0 {
        return 0;
      }
      PageTables.NewTable(s, Junk(5), c);
      assert TableOk(s, Parent(c));
      mem := mem[p := Zeros()];
      mem := mem[t := mem[t][j := Entry(p, 0)]];
      use, at := use[p := Table(c)], at[c := p];
      assert View() == AddTable(Take(s, Junk(5)), c, p);
    }

    /** One level of walk(): from table t to the table below it, for page v. */
    method Descend(t: nat, level: nat, alloc: bool, vpn: nat, ghost root: nat, ghost next: nat) returns (p: nat)
      requires Valid() && 0 < level <= 2 && next == level - 1 && vpn < MAXVPN
      requires Place(root, level, vpn) in at && t == at[Place(root, level, vpn)]
      modifies this
      ensures Valid() && Keeps(old(View()), View()) && Place(root, level, vpn) in at
      ensures p == 0 || !alloc ==> unchanged(this)
      ensures p == 0 ==> Place(root, next, vpn) !in at && Place(root, 0, vpn) !in at && (alloc ==> free == [])
      ensures p != 0 ==> Place(root, next, vpn) in at && p == at[Place(root, next, vpn)]
      ensures p != 0 ==> Arrives(old(View()), View(), Place(root, next, vpn))
    {
      ghost var n, c := Place(root, level, vpn), Place(root, next, vpn);
      PlaceChild(root, level, vpn);
      var j := PX(level, vpn);
      WalkDown(View(), n, j);
      PlaceUp(View(), root, vpn);
      if V(mem[t][j]) {
        p := PTE2PA(mem[t][j]);
        assert TableOk(View(), c) && UseOk(View(), at[c]);
      } else if alloc {
        p := NewTable(t, j, c);
      } else {
        p := 0;
      }
    }

    /** One turn of the loop of walk(), which has begun in s. */
    method WalkLevel(t: nat, level: nat, alloc: bool, vpn: nat, ghost root: nat, ghost next: nat, ghost s: St)
      returns (p: nat)
      requires Valid() && 0 < level <= 2 && next == level - 1 && vpn < MAXVPN
      requires Place(root, level, vpn) in at && t == at[Place(root, level, vpn)]
      requires Keeps(s, View()) && Spent(s, View(), Passed(root, level, vpn), 0)
      modifies this
      ensures Valid() && Keeps(s, View()) && (!alloc ==> unchanged(this))
      ensures p != 0 ==> Place(root, next, vpn) in at && p == at[Place(root, next, vpn)]
      ensures p != 0 ==> Spent(s, View(), Passed(root, next, vpn), 0)
      ensures p == 0 ==> Place(root, 0, vpn) !in at && (alloc ==> free == [] && Lacks(s, Path(root, vpn), 0))
    {
      ghost var m := View();
      p := Descend(t, level, alloc, vpn, root, next);
      if p == 0 {
        if alloc { NoTable(s, m, root, level, next, vpn); }
      } else {
        KeepsTwice(s, m, View());
        SpentDown(s, m, View(), root, level, next, vpn);
      }
    }

    /** The entry of address va: its table and index; not ok when there is no table for it. */
    method Walk(root: nat, va: nat, alloc: bool) returns (ok: bool, t: nat, i: nat)
      requires Valid() && Node(root, 2, 0) in at && va < MAXVA
      modifies this
      ensures Valid() && Keeps(old(View()), View())
      ensures !alloc ==> unchanged(this)
      ensures !ok && alloc ==> free == []
      ensures ok <==> Node(root, 0, va / PGSIZE / 512) in at
      ensures alloc && ok ==> Spent(old(View()), View(), Path(root, va / PGSIZE), 0)
      ensures alloc && !ok ==> Lacks(old(View()), Path(root, va / PGSIZE), 0)
      ensures ok ==> t == at[Node(root, 0, va / PGSIZE / 512)]
      ensures i == va / PGSIZE % 512
    {
      var v := va / PGSIZE;
      i := PX(0, v);
      t := root;
      var level := 2;
      ghost var s := View();
      KeepsItself(s);
      assert TableOk(s, Node(root, 2, 0));
      while level > 0
        invariant level <= 2 && Valid() && Keeps(s, View()) && (!alloc ==> unchanged(this))
        invariant Place(root, level, v) in at && t == at[Place(root, level, v)]
        invariant Spent(s, View(), Passed(root, level, v), 0)
      {
        t := WalkLevel(t, level, alloc, v, root, level - 1, s);
        if t == 0 {
          return false, 0, i;
        }
        level := level - 1;
      }
      return true, t, i;
    }

    /** Write leaf entry v, found at t and i. */
    method PutLeaf(t: nat, i: nat, w: nat, ghost root: nat, ghost v: nat, ghost pa: nat, ghost u: Use)
      requires Node(root, 0, v / 512) in at && t == at[Node(root, 0, v / 512)] && t in mem && i == v % 512
      modifies `mem, `use
      ensures View() == SetLeaf(old(View()), root, v, w, pa, u)
    {
      mem := mem[t := mem[t][i := w]];
      if v < USERVPN {
        use := use[pa := u];
      }
    }

    /** Map the page of address a with entry w, for page pa. */
    method MapPage(root: nat, a: nat, w: nat, ghost v: nat, ghost pa: nat) returns (r: int)
      requires Valid() && Node(root, 2, 0) in at && a < MAXVA && v == a / PGSIZE && Spare(View(), v, pa)
      requires V(w) && (v < USERVPN ==> PTE2PA(w) == pa)
      modifies this
      ensures Valid() && (r == 0 || r == -1 || r == PANIC)
      ensures r == PANIC <==> V(Leaf(old(View()), root, v))
      ensures r != 0 ==> Keeps(old(View()), View())
      ensures r == -1 ==> free == [] && Lacks(old(View()), Path(root, v), 0)
      ensures r == 0 ==> MapsOne(old(View()), View(), root, v, w, pa) && Spent(old(View()), View(), Path(root, v), 0)
    {
      ghost var s := View();
      var ok, t, i := Walk(root, a, true);
      if !ok {
        return -1;
      }
      LeafAt(View(), root, v);
      if V(mem[t][i]) {
        return PANIC;
      }
      KeepsMaps(s, View(), root, v, w, pa);
      PutLeaf(t, i, w, root, v, pa, User(root, v));
      return 0;
    }

    /** One turn of the loop of mappages(), after the pages ps, at page x. */
    method MapTurn(root: nat, a: nat, q: nat, perm: nat, ghost pa: nat, ghost s: St, ghost v: nat, ghost ps: seq<nat>,
                   ghost x: nat)
      returns (r: int, ghost qs: seq<nat>)
      requires Valid() && Node(root, 2, 0) in at && perm < 1024 && a == x * PGSIZE && x == v + |ps|
      requires Inv(s) && Maps(s, View(), root, v, ps) && Spare(s, x, q)
      requires MappedAs(View(), root, v, ps, pa, perm) && q == Nth(pa, |ps|)
      modifies this
      ensures Valid() && Node(root, 2, 0) in at && (r == 0 || r == -1 || r == PANIC)
      ensures r == PANIC <==> Refused(s, root, x)
      ensures r == -1 ==> free == [] && Lacks(old(View()), Path(root, x), 0)
      ensures r == 0 ==> Spent(old(View()), View(), Path(root, x), 0)
      ensures qs == if r == 0 then ps + [q] else ps
      ensures Maps(s, View(), root, v, qs) && MappedAs(View(), root, v, qs, pa, perm)
    {
      qs := ps;
      if a >= MAXVA {
        return PANIC, ps;
      }
      ghost var m := View();
      NthNew(m, root, v, ps, pa, perm);
      StillSpare(s, m, root, v, x, ps, q);
      assert x < USERVPN ==> UseOk(s, q);
      var w := Entry(q, perm);
      EntryOf(q, perm);
      r := MapPage(root, a, w, x, q);
      if r == 0 {
        qs := ps + [q];
        MapsMore(s, m, View(), root, v, ps, w, q);
      } else {
        KeepsMapped(s, m, View(), root, v, ps);
      }
      MappedMore(m, View(), root, v, ps, pa, perm, q);
    }

    /** The turn at page x, and what memory it takes. */
    method MapNext(root: nat, a: nat, q: nat, perm: nat, ghost pa: nat, ghost s: St, ghost v: nat, ghost ps: seq<nat>,
                   ghost x: nat, ghost y: nat)
      returns (r: int, ghost qs: seq<nat>)
      requires Valid() && Node(root, 2, 0) in at && perm < 1024 && a == x * PGSIZE && x == v + |ps| && y == x + 1
      requires Inv(s) && Maps(s, View(), root, v, ps) && Spare(s, x, q)
      requires MappedAs(View(), root, v, ps, pa, perm) && q == Nth(pa, |ps|) && SpentTo(s, View(), root, v, x, 0)
      modifies this
      ensures Valid() && Node(root, 2, 0) in at && (r == 0 || r == -1 || r == PANIC)
      ensures r == PANIC <==> Refused(s, root, x)
      ensures r == -1 ==> free == [] && ShortAt(s, root, v, x)
      ensures r == 0 ==> SpentTo(s, View(), root, v, y, 0)
      ensures qs == if r == 0 then ps + [q] else ps
      ensures Maps(s, View(), root, v, qs) && MappedAs(View(), root, v, qs, pa, perm)
    {
      ghost var m := View();
      r, qs := MapTurn(root, a, q, perm, pa, s, v, ps, x);
      if r == 0 {
        SpentNext(s, m, View(), root, v, x, y, 0, 0, 0);
      } else if r == -1 {
        ShortHere(s, m, root, v, x);
      }
    }

    /** Pages are mapped up to the first one that is refused, or for which there is no table. */
    method Mappages(root: nat, va: nat, size: nat, pa: nat, perm: nat) returns (r: int, ghost ps: seq<nat>)
      requires Valid() && Node(root, 2, 0) in at && perm < 1024
      requires forall k :: 0 <= k < size / PGSIZE ==> Spare(View(), va / PGSIZE + k, Nth(pa, k))
      modifies this
      ensures Valid() && Maps(old(View()), View(), root, va / PGSIZE, ps)
      ensures MappedAs(View(), root, va / PGSIZE, ps, pa, perm) && |ps| <= size / PGSIZE
      ensures va % PGSIZE != 0 || size % PGSIZE != 0 || size == 0 ==> r == PANIC && ps == []
      ensures va % PGSIZE == 0 && size % PGSIZE == 0 && size > 0 ==>
        Mapped(old(View()), root, va / PGSIZE, (va + size) / PGSIZE, va / PGSIZE + |ps|, r, free)
      ensures r == 0 ==> SpentTo(old(View()), View(), root, va / PGSIZE, (va + size) / PGSIZE, 0)
    {
      if va % PGSIZE != 0 || size % PGSIZE != 0 || size == 0 {
        return PANIC, [];
      }
      PageAt(va, size, size / PGSIZE - 1);
      ghost var x;
      r, ps, x := MapFrom(root, va, va + size - PGSIZE, pa, perm, va / PGSIZE, (va + size) / PGSIZE);
    }

    /** The loop of mappages() from page v to page e. */
    method MapFrom(root: nat, va: nat, last: nat, pa: nat, perm: nat, ghost v: nat, ghost e: nat)
      returns (r: int, ghost ps: seq<nat>, ghost x: nat)
      requires Valid() && Node(root, 2, 0) in at && perm < 1024 && v < e
      requires va == v * PGSIZE && last == (e - 1) * PGSIZE
      requires forall k :: 0 <= k < e - v ==> Spare(View(), v + k, Nth(pa, k))
      modifies this
      ensures Valid() && Maps(old(View()), View(), root, v, ps) && MappedAs(View(), root, v, ps, pa, perm)
      ensures x == v + |ps| && Mapped(old(View()), root, v, e, x, r, free)
      ensures r == 0 ==> x == e && SpentTo(old(View()), View(), root, v, x, 0)
    {
      var a, q := va, pa;
      ghost var s := View();
      ps, x := [], v;
      SpentNone(s, root, v);
      while true
        invariant Valid() && Node(root, 2, 0) in at
        invariant x < e && x == v + |ps| && a == x * PGSIZE && q == Nth(pa, |ps|)
        invariant Maps(s, View(), root, v, ps) && MappedAs(View(), root, v, ps, pa, perm)
        invariant Clear(s, root, v, x) && SpentTo(s, View(), root, v, x, 0)
        decreases e - x
      {
        assert Spare(s, v + |ps|, Nth(pa, |ps|));
        ghost var y := x + 1;
        r, ps := MapNext(root, a, q, perm, pa, s, v, ps, x, y);
        if r != 0 {
          return;
        }
        ClearMore(s, root, v, x);
        x := y;
        if a == last {
          break;
        }
        a, q := a + PGSIZE, q + PGSIZE;
      }
    }

    /** Unmap the page of address a, if it is mapped. */
    method UnmapPage(root: nat, a: nat, do_free: bool, ghost v: nat)
      requires Valid() && Node(root, 2, 0) in at && a < MAXVA && v == a / PGSIZE && (do_free ==> v < USERVPN)
      modifies this
      ensures Valid() && Shrinks(old(View()), View(), root, v, v + 1, if do_free then Free else Held)
    {
      ghost var s := View();
      var ok, t, i := Walk(root, a, false);
      if ok { LeafAt(s, root, v); }
      if !ok || !V(mem[t][i]) {
        ShrinksNone(s, root, v, if do_free then Free else Held);
        return;
      }
      var pa := PTE2PA(mem[t][i]);
      ShrinksOne(s, root, v);
      if do_free {
        OneUser(s, root, v);
        ShrinksFree(s, SetLeaf(s, root, v, 0, pa, Held), root, v, pa, Junk(1));
        FreeThenClear(s, root, v, pa, Junk(1));
        Release(pa);
      }
      PutLeaf(t, i, 0, root, v, pa, if do_free then Free else Held);
    }

    /** One turn of the loop of uvmunmap(), at page w. */
    method UnmapNext(root: nat, a: nat, do_free: bool, ghost s: St, ghost v: nat, ghost w: nat, ghost u: Use)
      requires Valid() && Node(root, 2, 0) in at && a < MAXVA && w == a / PGSIZE && (do_free ==> w < USERVPN)
      requires u == (if do_free then Free else Held) && v <= w && Shrinks(s, View(), root, v, w, u)
      modifies this
      ensures Valid() && Node(root, 2, 0) in at
      ensures Shrinks(s, View(), root, v, w + 1, u)
    {
      ghost var m := View();
      UnmapPage(root, a, do_free, w);
      ShrinksMore(s, m, View(), root, v, w, u);
    }

    method Uvmunmap(root: nat, va: nat, npages: nat, do_free: bool)
      requires Valid() && Node(root, 2, 0) in at && va % PGSIZE == 0 && va + npages * PGSIZE <= MAXVA
      requires do_free ==> va / PGSIZE + npages <= USERVPN
      modifies this
      ensures Valid()
      ensures Shrinks(old(View()), View(), root, va / PGSIZE, va / PGSIZE + npages, if do_free then Free else Held)
    {
      UnmapFrom(root, va, va + npages * PGSIZE, do_free, va / PGSIZE, va / PGSIZE + npages);
    }

    /** The loop of uvmunmap() from page v to page e. */
    method UnmapFrom(root: nat, va: nat, end: nat, do_free: bool, ghost v: nat, ghost e: nat)
      requires Valid() && Node(root, 2, 0) in at && va == v * PGSIZE && end == e * PGSIZE && end <= MAXVA
      requires v <= e && (do_free ==> e <= USERVPN)
      modifies this
      ensures Valid() && Shrinks(old(View()), View(), root, v, e, if do_free then Free else Held)
    {
      ghost var s, w := View(), v;
      ghost var u := if do_free then Free else Held;
      ShrinksZero(s, root, v, u);
      var a := va;
      while a < end
        invariant Valid() && Node(root, 2, 0) in at && v <= w <= e && a == w * PGSIZE
        invariant Shrinks(s, View(), root, v, w, u)
      {
        UnmapNext(root, a, do_free, s, v, w, u);
        a, w := a + PGSIZE, w + 1;
      }
    }

    /** A page from kalloc(), filled with d. */
    method TakePage(d: Page) returns (p: nat)
      requires Valid()
      modifies this
      ensures Valid() && (p == 0 <==> old(free) == []) && (p == 0 ==> unchanged(this))
      ensures p != 0 ==> Took(old(View()), View(), p, d) && Spent(old(View()), View(), {}, 1)
    {
      ghost var s := View();
      p := Kalloc();
      if p != 0 {
        TookIs(s, Junk(5), d);
        mem := mem[p := d];
        assert View() == Fill(Take(s, Junk(5)), p, d);
      }
    }

    /** Page p, which was free in s and held in m, could not be mapped. */
    method PutBack(p: nat, ghost d: Page, ghost s: St, ghost m: St)
      requires Valid() && Took(s, m, p, d) && Keeps(m, View())
      modifies this
      ensures Valid() && Keeps(s, View())
    {
      assert m.use[p] == Held;
      GiveInv(View(), p, Junk(1), {});
      NewPageFails(s, m, View(), p, d, Junk(1));
      Kfree(p, {});
    }

    /** mappages() for one page. */
    method MapOne(root: nat, a: nat, p: nat, perm: nat, ghost v: nat) returns (ok: bool)
      requires Valid() && Node(root, 2, 0) in at && a % PGSIZE == 0 && v == a / PGSIZE < USERVPN && perm < 1024
      requires Spare(View(), v, p) && !V(Leaf(View(), root, v))
      modifies this
      ensures Valid() && (!ok ==> Keeps(old(View()), View()))
      ensures !ok ==> Lacks(old(View()), Path(root, v), 0)
      ensures ok ==> Maps(old(View()), View(), root, v, [p])
      ensures ok ==> Spent(old(View()), View(), Path(root, v), 0)
      ensures ok ==> Leaf(View(), root, v) == Entry(p, perm)
    {
      ghost var s, ps := View(), [];
      assert Nth(p, 0) == p;
      OnePath(root, v);
      assert Paths(root, v, v) + Path(root, v) == Path(root, v);
      var r;
      r, ps := Mappages(root, a, PGSIZE, p, perm);
      ok := r == 0;
      if ok {
        assert ps == [p];
      } else {
        NoneMapped(s, View(), root, v, ps);
      }
    }

    /** A page from kalloc() with contents d is mapped at address a. */
    method NewPage(root: nat, a: nat, d: Page, perm: nat, ghost v: nat) returns (ok: bool)
      requires Valid() && Node(root, 2, 0) in at && a % PGSIZE == 0 && v == a / PGSIZE < USERVPN && perm < 1024
      requires !V(Leaf(View(), root, v))
      modifies this
      ensures Valid() && (!ok ==> Keeps(old(View()), View()))
      ensures !ok ==> Lacks(old(View()), Path(root, v), 1)
      ensures ok ==> Spent(old(View()), View(), Path(root, v), 1)
      ensures ok ==> Grows(old(View()), View(), root, v, v + 1)
      ensures ok ==> Has(View(), root, v, d, perm)
    {
      ghost var s := View();
      var p := TakePage(d);
      if p == 0 {
        NoPage(s, Path(root, v));
        return false;
      }
      ghost var m := View();
      ok := MapOne(root, a, p, perm, v);
      if !ok {
        LacksPage(s, m, Path(root, v));
        PutBack(p, d, s, m);
        return false;
      }
      SpentPage(s, m, View(), Path(root, v));
      assert LeafOk(View(), root, v);
      NewPageGrows(s, m, View(), root, v, p, d, perm);
      return true;
    }

    /** Free table n and all below it; none has a leaf, so the source's panic is not reached. */
    method Freewalk(pt: nat, ghost n: Node)
      requires Valid() && n in at && at[n] == pt && NoLeaves(View(), n)
      modifies this
      ensures InvBut(View(), {n}) && Listed() && Swept(old(View()), View(), n)
      decreases n.lvl, 2
    {
      ghost var s := View();
      assert TableOk(s, n);
      var i := 0;
      while i < 512
        invariant i <= 512 && Valid() && n in at && at[n] == pt && SweptTo(s, View(), n, i)
      {
        FreeEntry(pt, i, n, s);
        i := i + 1;
      }
      FreeTable(pt, n, s);
    }

    /** The table itself, when all below it is gone. */
    method FreeTable(pt: nat, ghost n: Node, ghost s: St)
      requires Valid() && Inv(s) && n in s.at && n in at && at[n] == pt && SweptTo(s, View(), n, 512) && NoLeaves(s, n)
      modifies this
      ensures InvBut(View(), {n}) && Listed() && Swept(s, View(), n)
    {
      SweptLast(s, View(), n, Junk(1));
      use, at := use[pt := Held], at - {n};
      Kfree(pt, {n});
    }

    /** One turn of the loop of freewalk(). */
    method FreeEntry(pt: nat, i: nat, ghost n: Node, ghost s: St)
      requires Valid() && n in s.at && n in at && n.lvl <= 2 && at[n] == pt && i < 512
      requires SweptTo(s, View(), n, i) && NoLeaves(s, n)
      modifies this
      ensures Valid() && n in at && at[n] == pt && SweptTo(s, View(), n, i + 1)
      decreases n.lvl, 1
    {
      LeafEntry(s, View(), n, i);
      var pte := mem[pt][i];
      if V(pte) && Inner(pte) {
        FreeChild(pt, i, PTE2PA(pte), n, s);
      } else {
        assert !V(pte);
        if n.lvl > 0 { SweptSkip(s, View(), n, i); } else { SweptLeaf(s, View(), n, i); }
      }
    }

    /** The subtree behind entry i goes, and then the entry. */
    method FreeChild(pt: nat, i: nat, child: nat, ghost n: Node, ghost s: St)
      requires Valid() && n in s.at && n in at && 0 < n.lvl <= 2 && at[n] == pt && i < 512
      requires SweptTo(s, View(), n, i) && NoLeaves(s, n) && Child(n, i) in at && at[Child(n, i)] == child
      modifies this
      ensures Valid() && n in at && at[n] == pt && SweptTo(s, View(), n, i + 1)
      decreases n.lvl, 0
    {
      ghost var c, t := Child(n, i), View();
      NoLeavesDown(s, t, n, i);
      Freewalk(child, c);
      ParentChild(n, i);
      NotUnder(n, i);
      UnlinkInv(View(), c);
      SweptStep(s, t, View(), n, i);
      mem := mem[pt := mem[pt][i := 0]];
    }

    method Uvmdealloc(root: nat, oldsz: nat, newsz: nat) returns (r: nat)
      requires Valid() && Node(root, 2, 0) in at && oldsz <= USERVPN * PGSIZE
      modifies this
      ensures Valid()
      ensures newsz >= oldsz ==> r == oldsz && unchanged(this)
      ensures newsz < oldsz ==> r == newsz
      ensures newsz < oldsz ==>
        Shrinks(old(View()), View(), root, Pages(newsz), Pages(oldsz), Free)
    {
      if newsz >= oldsz {
        return oldsz;
      }
      if PageRoundUp(newsz) < PageRoundUp(oldsz) {
        var npages := (PageRoundUp(oldsz) - PageRoundUp(newsz)) / PGSIZE;
        Uvmunmap(root, PageRoundUp(newsz), npages, true);
      } else {
        ShrinksZero(View(), root, Pages(newsz), Free);
      }
      return newsz;
    }

    /** Grow from oldsz to newsz with cleared pages; a failure changes nothing but tables. */
    method Uvmalloc(root: nat, oldsz: nat, newsz: nat, xperm: nat) returns (r: nat)
      requires Valid() && Node(root, 2, 0) in at && newsz <= USERVPN * PGSIZE && xperm < 16 && xperm % 4 == 0
      requires forall x: nat :: Pages(oldsz) <= x < Pages(newsz) ==> !V(Leaf(View(), root, x))
      modifies this
      ensures Valid()
      ensures newsz < oldsz ==> r == oldsz && unchanged(this)
      ensures newsz >= oldsz ==> r == newsz || r == 0
      ensures newsz >= oldsz ==> var lo, hi := Pages(oldsz), Pages(newsz);
        (r == newsz <==> !Short(old(View()), root, lo, hi, if lo < hi then hi - lo else 0))
      ensures newsz >= oldsz && r == 0 ==> Keeps(old(View()), View())
      ensures newsz >= oldsz && r != 0 ==>
        var lo, hi := Pages(oldsz), Pages(newsz);
        Grows(old(View()), View(), root, lo, hi) && Cleared(View(), root, lo, hi, PTE_R + PTE_U + xperm)
    {
      if newsz < oldsz {
        return oldsz;
      }
      PagesIs(oldsz);
      PagesIs(newsz);
      var ok := AllocFrom(root, PageRoundUp(oldsz), newsz, PTE_R + PTE_U + xperm, Pages(oldsz), Pages(newsz));
      return if ok then newsz else 0;
    }

    /** The loop of uvmalloc() over pages lo to hi. */
    method AllocFrom(root: nat, start: nat, newsz: nat, perm: nat, ghost lo: nat, ghost hi: nat) returns (ok: bool)
      requires Valid() && Node(root, 2, 0) in at && perm < 1024
      requires start == lo * PGSIZE && lo <= hi <= USERVPN && Spans(newsz, hi)
      requires forall x: nat :: lo <= x < hi ==> !V(Leaf(View(), root, x))
      modifies this
      ensures Valid() && (!ok ==> Keeps(old(View()), View()))
      ensures ok <==> !Short(old(View()), root, lo, hi, hi - lo)
      ensures ok ==> Grows(old(View()), View(), root, lo, hi) && Cleared(View(), root, lo, hi, perm)
    {
      ghost var s := View();
      var a := start;
      ghost var k, n := lo, 0;
      GrowsZero(s, root, lo);
      SpentNone(s, root, lo);
      while a < newsz
        invariant Valid() && Node(root, 2, 0) in at && a == k * PGSIZE && lo <= k <= hi
        invariant Grows(s, View(), root, lo, k) && Cleared(View(), root, lo, k, perm)
        invariant n == k - lo && SpentTo(s, View(), root, lo, k, n)
      {
        ghost var m, more := k + 1, n + 1;
        ok := AllocNext(root, a, start, perm, s, lo, k, m, n, more);
        if !ok {
          ShortMore(s, root, lo, m, more, hi, hi - lo);
          return;
        }
        a, k, n := a + PGSIZE, m, more;
      }
      SpansEnd(newsz, hi, k);
      SpentIs(s, View(), Paths(root, lo, k), n);
      return true;
    }

    /** One turn of the loop of uvmalloc(). */
    method AllocTurn(root: nat, a: nat, start: nat, perm: nat, ghost s: St, ghost lo: nat, ghost k: nat)
      returns (ok: bool)
      requires Valid() && Node(root, 2, 0) in at && lo <= k < USERVPN && a == k * PGSIZE && start == lo * PGSIZE
      requires perm < 1024
      requires Inv(s) && Grows(s, View(), root, lo, k) && Cleared(View(), root, lo, k, perm)
      requires forall x: nat :: lo <= x <= k ==> !V(Leaf(s, root, x))
      modifies this
      ensures Valid() && (!ok ==> Keeps(s, View()))
      ensures ok ==> Node(root, 2, 0) in at && Grows(s, View(), root, lo, k + 1)
      ensures ok ==> Cleared(View(), root, lo, k + 1, perm) && Spent(old(View()), View(), Path(root, k), 1)
      ensures !ok ==> Lacks(old(View()), Path(root, k), 1)
    {
      ghost var m := View();
      assert !InRange(root, k, root, lo, k);
      ok := NewPage(root, a, Zeros(), perm, k);
      if ok {
        ClearedMore(s, m, View(), root, lo, k, perm);
      } else {
        GiveUp(root, a, start, s, m, lo, k);
      }
    }

    /** The turn at page k, after n pages, and what memory it takes. */
    method AllocNext(root: nat, a: nat, start: nat, perm: nat, ghost s: St, ghost lo: nat, ghost k: nat,
                     ghost m: nat, ghost n: nat, ghost more: nat)
      returns (ok: bool)
      requires Valid() && Node(root, 2, 0) in at && lo <= k < USERVPN && a == k * PGSIZE && start == lo * PGSIZE
      requires perm < 1024 && m == k + 1 && more == n + 1 && SpentTo(s, View(), root, lo, k, n)
      requires Inv(s) && Grows(s, View(), root, lo, k) && Cleared(View(), root, lo, k, perm)
      requires forall x: nat :: lo <= x <= k ==> !V(Leaf(s, root, x))
      modifies this
      ensures Valid() && (!ok ==> Keeps(s, View()) && Short(s, root, lo, m, more))
      ensures ok ==> Node(root, 2, 0) in at && Grows(s, View(), root, lo, m)
      ensures ok ==> Cleared(View(), root, lo, m, perm) && SpentTo(s, View(), root, lo, m, more)
    {
      ghost var t := View();
      ok := AllocTurn(root, a, start, perm, s, lo, k);
      if ok {
        SpentNext(s, t, View(), root, lo, k, m, n, 1, more);
      } else {
        ShortNext(s, t, root, lo, k, m, n, 1, more);
      }
    }

    /** The failure exit of uvmalloc(). */
    method GiveUp(root: nat, a: nat, start: nat, ghost s: St, ghost m: St, ghost lo: nat, ghost k: nat)
      requires Valid() && Node(root, 2, 0) in at && lo <= k <= USERVPN && a == k * PGSIZE && start == lo * PGSIZE
      requires Inv(s) && Grows(s, m, root, lo, k) && Keeps(m, View())
      requires forall x: nat :: lo <= x < k ==> !V(Leaf(s, root, x))
      modifies this
      ensures Valid() && Keeps(s, View())
    {
      ghost var t := View();
      GrowsKeeps(s, m, t, root, lo, k);
      var r := Uvmdealloc(root, a, start);
      WholePages(lo);
      WholePages(k);
      if lo == k { ShrinksZero(t, root, lo, Free); }
      GrowFails(s, t, View(), root, lo, k);
    }

    /** The pages of `parent` below sz are copied to `child`, which has none. */
    method Uvmcopy(parent: nat, child: nat, sz: nat) returns (r: int)
      requires Valid() && Node(parent, 2, 0) in at && Node(child, 2, 0) in at && parent != child
      requires sz <= USERVPN * PGSIZE
      requires forall x: nat :: x < Pages(sz) ==> !V(Leaf(View(), child, x))
      modifies this
      ensures Valid() && (r == 0 || r == -1)
      ensures r == -1 <==> CopyLacks(old(View()), parent, child, Pages(sz))
      ensures r == -1 ==> Keeps(old(View()), View())
      ensures r == 0 ==> var hi := Pages(sz);
        Grows(old(View()), View(), child, 0, hi) && CopiedTo(old(View()), View(), parent, child, hi)
    {
      PagesIs(sz);
      r := CopyBelow(parent, child, sz, Pages(sz));
    }

    /** The loop of uvmcopy() over hi pages. */
    method CopyBelow(parent: nat, child: nat, sz: nat, ghost hi: nat) returns (r: int)
      requires Valid() && Node(parent, 2, 0) in at && Node(child, 2, 0) in at && parent != child
      requires Spans(sz, hi) && hi <= USERVPN && forall x: nat :: x < hi ==> !V(Leaf(View(), child, x))
      modifies this
      ensures Valid() && (r == 0 || r == -1)
      ensures r == -1 <==> CopyLacks(old(View()), parent, child, hi)
      ensures r == -1 ==> Keeps(old(View()), View())
      ensures r == 0 ==> Grows(old(View()), View(), child, 0, hi) && CopiedTo(old(View()), View(), parent, child, hi)
    {
      ghost var s := View();
      var i := 0;
      ghost var k := 0;
      GrowsZero(s, child, 0);
      CopyNone(s, parent, child);
      while i < sz
        invariant Valid() && Node(parent, 2, 0) in at && Node(child, 2, 0) in at
        invariant 0 <= k <= hi && i == k * PGSIZE
        invariant Grows(s, View(), child, 0, k) && CopiedTo(s, View(), parent, child, k)
        invariant SpentCopying(s, View(), parent, child, k)
      {
        ghost var m := k + 1;
        var ok := CopyPage(parent, child, i, s, k, m);
        if !ok {
          CopyLacksMore(s, parent, child, m, hi);
          CopyFails(child, i, s, k);
          return -1;
        }
        i, k := i + PGSIZE, m;
      }
      SpansEnd(sz, hi, k);
      SpentIs(s, View(), CopyTables(s, parent, child, k), CopyPages(s, parent, k));
      return 0;
    }

    /** The failure exit of uvmcopy(). */
    method CopyFails(child: nat, i: nat, ghost s: St, ghost k: nat)
      requires Valid() && Node(child, 2, 0) in at && i == k * PGSIZE && k <= USERVPN
      requires Inv(s) && Grows(s, View(), child, 0, k) && forall x: nat :: x < k ==> !V(Leaf(s, child, x))
      modifies this
      ensures Valid() && Keeps(s, View())
    {
      ghost var t := View();
      Uvmunmap(child, 0, i / PGSIZE, true);
      GrowFails(s, t, View(), child, 0, k);
    }

    /** One turn of the loop of uvmcopy(). */
    method CopyTurn(parent: nat, child: nat, i: nat, ghost s: St, ghost k: nat) returns (ok: bool)
      requires Valid() && Node(parent, 2, 0) in at && Node(child, 2, 0) in at && parent != child
      requires Inv(s) && i == k * PGSIZE && k < USERVPN && !V(Leaf(s, child, k))
      requires Grows(s, View(), child, 0, k) && CopiedTo(s, View(), parent, child, k)
      modifies this
      ensures Valid() && Node(parent, 2, 0) in at && Node(child, 2, 0) in at
      ensures if ok then Grows(s, View(), child, 0, k + 1) && CopiedTo(s, View(), parent, child, k + 1)
              else Grows(s, View(), child, 0, k)
      ensures !V(Leaf(s, parent, k)) ==> ok && unchanged(this)
      ensures V(Leaf(s, parent, k)) && ok ==> Spent(old(View()), View(), Path(child, k), 1)
      ensures !ok ==> Lacks(old(View()), Path(child, k), 1)
    {
      ghost var m := View();
      ParentPage(s, m, parent, child, k);
      var found, t, j := Walk(parent, i, false);
      if found { LeafAt(m, parent, k); }
      if !found || !V(mem[t][j]) {
        GrowsZero(m, child, k);
        GrowsOver(m, m, child, k, k);
        CopiedMore(s, m, m, parent, child, k);
        return true;
      }
      var pa, flags := PTE2PA(mem[t][j]), Flags(mem[t][j]);
      ok := NewPage(child, i, mem[pa], flags, k);
      if ok {
        CopiedMore(s, m, View(), parent, child, k);
      } else {
        GrowsKeeps(s, m, View(), child, 0, k);
      }
    }

    /** The turn at page k, and what memory it takes. */
    method CopyPage(parent: nat, child: nat, i: nat, ghost s: St, ghost k: nat, ghost m: nat) returns (ok: bool)
      requires Valid() && Node(parent, 2, 0) in at && Node(child, 2, 0) in at && parent != child
      requires Inv(s) && i == k * PGSIZE && k < USERVPN && !V(Leaf(s, child, k))
      requires Grows(s, View(), child, 0, k) && CopiedTo(s, View(), parent, child, k)
      requires m == k + 1 && SpentCopying(s, View(), parent, child, k)
      modifies this
      ensures Valid() && Node(parent, 2, 0) in at && Node(child, 2, 0) in at
      ensures if ok then Grows(s, View(), child, 0, m) && CopiedTo(s, View(), parent, child, m)
              else Grows(s, View(), child, 0, k)
      ensures if ok then SpentCopying(s, View(), parent, child, m) else CopyLacks(s, parent, child, m)
    {
      ghost var t := View();
      ok := CopyTurn(parent, child, i, s, k);
      if ok {
        CopySpends(s, t, View(), parent, child, m);
      } else {
        CopyRunsOut(s, t, parent, child, m);
      }
    }

    /** Free an address space whose leaves are all below sz. */
    method Uvmfree(root: nat, sz: nat)
      requires Valid() && Node(root, 2, 0) in at && sz <= USERVPN * PGSIZE
      requires Bounded(View(), root, Pages(sz))
      modifies this
      ensures Valid() && Dissolved(old(View()), View(), root)
    {
      ghost var s, n := View(), Node(root, 2, 0);
      ghost var hi := Pages(sz);
      if sz > 0 {
        Uvmunmap(root, 0, Pages(sz), true);
      } else {
        ShrinksZero(s, root, 0, Free);
      }
      ghost var t := View();
      ShrinksAll(s, t, root, hi);
      assert TableOk(t, n);
      Freewalk(root, n);
      RootInv(View(), n);
      DissolvedIs(s, t, View(), root, hi);
    }
  }
}
