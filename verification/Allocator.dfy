/**
  malloc(), free() and morecore() of user/umalloc.c, statement by statement, against the
  heap of module Arena.
 */
module Allocator {
  import opened FreeList
  import opened Arena
  import opened Umalloc

  const INT_LIMIT: nat := 0x8000_0000      // sbrk takes its argument as a 32-bit int
  const MAX_REQUEST: nat := 0x7FFF_FFE0    // largest request whose size survives that

  /** A size as sbrk sees it. */
  function AsInt(x: nat): int {
    var y := x % (2 * INT_LIMIT);
    if y < INT_LIMIT then y else y - 2 * INT_LIMIT
  }

  /** The answer of sbrk: no memory, or memory that starts `gap` units above the last. */
  datatype Sbrk = Refused | Granted(gap: nat)

  /** The node m places behind node i of a ring of n nodes. */
  function Round(i: nat, m: nat, n: nat): (k: nat)
    requires i < n && m <= n
    ensures k < n
  {
    if i + m < n then i + m else i + m - n
  }

  /** Some free block has at least n units. */
  ghost predicate Fits(l: seq<Blk>, n: nat) {
    exists i :: 0 <= i < |l| && l[i].n >= n
  }

  /** The search of malloc() has gone k nodes behind node i, and none of them has n units. */
  ghost predicate Walk(nodes: seq<Blk>, i: nat, k: nat, n: nat, prevp: nat, p: nat) {
    && i < |nodes| && k < |nodes|
    && prevp == nodes[Round(i, k, |nodes|)].at && p == After(nodes, Round(i, k, |nodes|))
    && forall m :: 1 <= m <= k ==> nodes[Round(i, m, |nodes|)].n < n
  }

  lemma WalkAt(mem: Memory, nodes: seq<Blk>, i: nat, k: nat, n: nat, prevp: nat, p: nat)
    requires Ring(mem, nodes) && Walk(nodes, i, k, n, prevp, p)
    ensures p in mem && p == nodes[Round(i, k + 1, |nodes|)].at
    ensures mem[p] == Header(After(nodes, Round(i, k + 1, |nodes|)), nodes[Round(i, k + 1, |nodes|)].n)
  {
    NodeAt(mem, nodes, Round(i, k + 1, |nodes|));
  }

  /** Free block i is the first with n units on the way from node `here` around the ring. */
  ghost predicate FirstFit(l: seq<Blk>, here: nat, n: nat, i: nat) {
    && i < |l| && l[i].n >= n
    && forall j :: 0 <= j < |l| && (if here <= i then here <= j < i else j >= here || j < i) ==> l[j].n < n
  }

  lemma WalkOn(mem: Memory, nodes: seq<Blk>, i: nat, k: nat, n: nat, prevp: nat, p: nat)
    requires Ring(mem, nodes) && Walk(nodes, i, k, n, prevp, p)
    requires p in mem && mem[p].size < n && p != nodes[i].at
    ensures k + 1 < |nodes| && Walk(nodes, i, k + 1, n, p, mem[p].ptr)
  {
    WalkAt(mem, nodes, i, k, n, prevp, p);
  }

  /** A node with n units is a free block, and prevp is the node before it. */
  lemma WalkFits(base: nat, mem: Memory, l: seq<Blk>, i: nat, k: nat, n: nat, prevp: nat, p: nat)
    requires Ring(mem, Nodes(base, l)) && Walk(Nodes(base, l), i, k, n, prevp, p)
    requires p in mem && mem[p].size >= n > 0
    ensures var j := Round(i, k, |l| + 1);
      FirstFit(l, i, n, j) && prevp == Nodes(base, l)[j].at && p == l[j].at
  {
    WalkAt(mem, Nodes(base, l), i, k, n, prevp, p);
    var j := Round(i, k, |l| + 1);
    forall x | 0 <= x < |l| && (if i <= j then i <= x < j else x >= i || x < j) ensures l[x].n < n {
      var m := if x >= i then x + 1 - i else x + 1 - i + |l| + 1;
      assert Nodes(base, l)[Round(i, m, |l| + 1)] == l[x];
    }
  }

  /** Back at node i, the walk has seen every node. */
  lemma WalkDone(mem: Memory, nodes: seq<Blk>, i: nat, k: nat, n: nat, prevp: nat, p: nat)
    requires Ring(mem, nodes) && Ordered(nodes) && Walk(nodes, i, k, n, prevp, p)
    requires p in mem && mem[p].size < n && p == nodes[i].at
    ensures forall j :: 0 <= j < |nodes| ==> nodes[j].n < n
  {
    WalkAt(mem, nodes, i, k, n, prevp, p);
    forall j | 0 <= j < |nodes| ensures nodes[j].n < n {
      assert j == Round(i, if j > i then j - i else j - i + |nodes|, |nodes|);
    }
  }

  lemma WalkFails(base: nat, mem: Memory, l: seq<Blk>, i: nat, k: nat, n: nat, prevp: nat, p: nat)
    requires Ring(mem, Nodes(base, l)) && Tidy(l) && Above(base, l) && Walk(Nodes(base, l), i, k, n, prevp, p)
    requires p in mem && mem[p].size < n && p == Nodes(base, l)[i].at
    ensures !Fits(l, n)
  {
    NodesOrdered(base, l);
    WalkDone(mem, Nodes(base, l), i, k, n, prevp, p);
    forall j | 0 <= j < |l| ensures l[j].n < n {
      assert l[j] == Nodes(base, l)[j + 1];
    }
  }

  lemma InsertFits(l: seq<Blk>, b: Blk, n: nat)
    requires n <= b.n
    ensures Fits(Insert(l, b), n)
  {
    assert Insert(l, b)[Low(l, b)] == Joined(l, b);
  }

  lemma ExtendedFits(h: Heap, a: nat, n: nat, u: nat)
    requires a !in h.live && u <= n
    ensures Fits(Extended(h, a, n).blocks, u)
  {
    ExtendedIs(h, a, n);
    InsertFits(h.blocks, Blk(a, n), u);
  }

  function CoreUnits(nu: nat): nat {
    if nu < MINCORE then MINCORE else nu
  }

  /** Which requests reach sbrk with their size intact, of all that fit in malloc's unsigned argument. */
  lemma SbrkArgument(nbytes: nat)
    requires nbytes < 2 * INT_LIMIT
    ensures var size := CoreUnits(UnitsFor(nbytes)) * HEADER;
      AsInt(size) == size <==> nbytes <= MAX_REQUEST
  {
  }

  /** The first request that does not, and the last one there is: memory is taken away, or too little comes. */
  lemma SbrkMistaken()
    ensures AsInt(CoreUnits(UnitsFor(MAX_REQUEST + 1)) * HEADER) == 0 - (INT_LIMIT as int)
    ensures AsInt(CoreUnits(UnitsFor(2 * INT_LIMIT - 1)) * HEADER) == HEADER
  {
  }

  /** morecore() with answer s turns heap h, with memory up to brk, into g. */
  ghost predicate Extends(h: Heap, brk: nat, n: nat, s: Sbrk, g: Heap) {
    if s.Refused? then g == h else g == Extended(h, brk + s.gap, CoreUnits(n))
  }

  /** Where the search goes on after memory was added. */
  function Resumes(h: Heap, brk: nat, s: Sbrk): nat {
    if s.Refused? then 0 else Below(h.blocks, brk + s.gap)
  }

  /** A request for n units is served from heap g: sbrk is asked only when no free block fits. */
  ghost predicate Serves(h: Heap, brk: nat, n: nat, s: Sbrk, g: Heap) {
    if Fits(h.blocks, n) then g == h else Extends(h, brk, n, s, g)
  }

  /** Units cut from a free block are in the arena, and apart from every block handed out. */
  lemma GivenApart(g: Heap, i: nat, n: nat)
    requires Divided(g) && i < |g.blocks| && 0 < n <= g.blocks[i].n
    ensures var a := CutAt(g.blocks, i, n);
      && a !in g.live && (forall c :: c in g.live ==> Apart(Live(g.live, c), Blk(a, n)))
      && (forall x :: In(Blk(a, n), x) ==> x in g.arena && Has(g.blocks, x))
  {
    var a := CutAt(g.blocks, i, n);
    GivenDivided(g, i, n);
    assert forall x :: In(Blk(a, n), x) ==> In(g.blocks[i], x);
    forall c | c in g.live ensures Apart(Live(g.live, c), Blk(a, n)) {
      assert Apart(g.blocks[i], Live(g.live, c));
    }
  }

  lemma ExtendsDivided(h: Heap, brk: nat, n: nat, s: Sbrk, g: Heap)
    requires s.Granted? && Divided(h) && Under(h.arena, brk + s.gap) && g == Extended(h, brk + s.gap, CoreUnits(n))
    ensures Divided(g) && g.live == h.live
  {
    ExtendedDivided(h, brk + s.gap, CoreUnits(n), g);
  }

  /** The heap that serves a request has the same blocks handed out. */
  lemma Served(h: Heap, brk: nat, n: nat, s: Sbrk, g: Heap)
    requires Divided(h) && Under(h.arena, brk) && Serves(h, brk, n, s, g)
    ensures Divided(g) && g.live == h.live
  {
    if g != h {
      ExtendsDivided(h, brk, n, s, g);
    }
  }

  /** What malloc() gives: fresh units of the arena, apart from every block handed out before. */
  lemma HandedOut(h: Heap, brk: nat, n: nat, s: Sbrk, g: Heap, i: nat)
    requires Divided(h) && Under(h.arena, brk) && Serves(h, brk, n, s, g)
    requires i < |g.blocks| && 0 < n <= g.blocks[i].n
    ensures var a, r := CutAt(g.blocks, i, n), Given(g, i, n);
      && a !in h.live && r.live == h.live[a := n]
      && (forall c :: c in h.live ==> Apart(Live(h.live, c), Blk(a, n)))
      && (forall x :: In(Blk(a, n), x) ==> x in r.arena)
      && (Fits(h.blocks, n) ==> r.arena == h.arena && forall x :: In(Blk(a, n), x) ==> Has(h.blocks, x))
  {
    Served(h, brk, n, s, g);
    GivenApart(g, i, n);
  }

  class Allocator {
    const base: nat
    var mem: Memory
    var freep: nat
    var brk: nat
    ghost var h: Heap
    ghost var here: nat

    ghost predicate Valid()
      reads this
    {
      Holds(base, mem, freep, here, h, brk)
    }

    /** A program starts with a null freep and no memory from sbrk. */
    constructor (base: nat, brk: nat)
      requires 0 < base < brk
      ensures Valid() && h == Heap([], map[], {})
    {
      this.base, this.brk, this.freep, this.mem := base, brk, 0, map[];
      h, here := Heap([], map[], {}), 0;
    }

    /** The loop of free(): it ends, at the node behind which bp belongs. */
    method Place(bp: nat) returns (p: nat)
      requires Valid() && bp in h.live
      ensures p == Nodes(base, h.blocks)[Below(h.blocks, bp)].at
    {
      ghost var nodes, b, t := Nodes(base, h.blocks), Live(h.live, bp), Below(h.blocks, bp);
      ghost var i: nat := here;
      p := freep;
      NodeAt(mem, nodes, i);
      PlaceOf(base, h.blocks, b);
      assert Ordered(nodes) by { NodesOrdered(base, h.blocks); }
      StopsAt(nodes, bp, t, i);
      while !(bp > p && bp < mem[p].ptr)
        invariant i < |nodes| && p == nodes[i].at
        invariant p in mem && mem[p].ptr == After(nodes, i)
        invariant i == t <==> Stops(bp, p, mem[p].ptr)
        decreases if i <= t then t - i else t - i + |nodes|
      {
        if p >= mem[p].ptr && (bp > p || bp < mem[p].ptr) {
          break;
        }
        p, i := mem[p].ptr, if i + 1 < |nodes| then i + 1 else 0;
        NodeAt(mem, nodes, i);
        StopsAt(nodes, bp, t, i);
      }
    }

    method Free(ap: nat)
      requires Valid() && ap > 0 && ap - 1 in h.live
      modifies `mem, `freep, `h, `here
      ensures Valid() && freep != 0
      ensures h == Freed(old(h), ap - 1) && here == Below(old(h.blocks), ap - 1)
    {
      var bp := ap - 1;
      var p := Place(bp);
      FreeHolds(base, mem, freep, here, h, brk, bp);
      Link(p, bp);
      freep := p;
      h, here := Freed(h, bp), Below(h.blocks, bp);
    }

    /** The part of free() that links bp in behind p. */
    method Link(p: nat, bp: nat)
      requires p in mem && bp in mem && mem[p].ptr in mem && mem[bp].size > 0
      modifies `mem
      ensures mem == Unite(old(mem), p, bp)
    {
      if bp + mem[bp].size == mem[p].ptr {
        var q := mem[p].ptr;
        mem := mem[bp := mem[bp].(size := mem[bp].size + mem[q].size)];
        mem := mem[bp := mem[bp].(ptr := mem[mem[p].ptr].ptr)];
      } else {
        mem := mem[bp := mem[bp].(ptr := mem[p].ptr)];
      }
      if p + mem[p].size == bp {
        mem := mem[p := mem[p].(size := mem[p].size + mem[bp].size)];
        mem := mem[p := mem[p].(ptr := mem[bp].ptr)];
      } else {
        mem := mem[p := mem[p].(ptr := bp)];
      }
    }

    method Morecore(nunits: nat, s: Sbrk) returns (r: nat)
      requires Valid() && freep != 0 && CoreUnits(nunits) * HEADER < INT_LIMIT
      modifies this
      ensures Valid() && freep != 0
      ensures s.Refused? ==> r == 0 && h == old(h) && brk == old(brk) && freep == old(freep)
      ensures s.Granted? ==> r == freep && brk == old(brk) + s.gap + CoreUnits(nunits) && Fits(h.blocks, nunits)
      ensures Extends(old(h), old(brk), nunits, s, h)
      ensures s.Granted? ==> here == Resumes(old(h), old(brk), s)
    {
      var nu := nunits;
      if nu < MINCORE {
        nu := MINCORE;
      }
      if s.Refused? {
        return 0;
      }
      assert nu == CoreUnits(nunits);
      Claim(brk + s.gap, nu, nunits, brk, s);
      return freep;
    }

    /** The part of morecore() that frees the memory from sbrk. */
    method Claim(hp: nat, nu: nat, ghost nunits: nat, ghost top: nat, ghost s: Sbrk)
      requires Valid() && freep != 0 && brk == top && nu == CoreUnits(nunits) && s.Granted? && hp == top + s.gap
      modifies this
      ensures Valid() && freep != 0 && brk == hp + nu && Fits(h.blocks, nunits)
      ensures Extends(old(h), top, nunits, s, h) && here == Resumes(old(h), top, s)
    {
      GrowHolds(base, mem, freep, here, h, brk, hp, nu, 0);
      mem, brk := mem[hp := Header(0, nu)], hp + nu;
      h := Grown(h, hp, nu);
      var ap := hp + 1;
      assert ap - 1 == hp;
      Free(ap);
      ExtendedFits(old(h), hp, nu, nunits);
    }

    /** The part of malloc() that hands out units of the block p behind prevp. */
    method HandOut(prevp: nat, p: nat, nunits: nat, ghost i: nat) returns (r: nat)
      requires Valid() && freep != 0 && i < |h.blocks| && 0 < nunits <= h.blocks[i].n
      requires prevp == Nodes(base, h.blocks)[i].at && p == h.blocks[i].at
      modifies `mem, `freep, `h, `here
      ensures Valid() && freep != 0
      ensures r > 0 && r - 1 == CutAt(old(h.blocks), i, nunits) && r - 1 !in old(h.live)
      ensures h == Given(old(h), i, nunits) && here == i
    {
      TakeHolds(base, mem, freep, here, h, brk, i, nunits, 0);
      r := Detach(prevp, p, nunits);
      freep := prevp;
      h, here := Given(h, i, nunits), i;
      r := r + 1;
    }

    /** The last nunits units of p are taken, the block itself when it has no more. */
    method Detach(prevp: nat, p: nat, nunits: nat) returns (q: nat)
      requires prevp in mem && p in mem && mem[p].size >= nunits
      modifies `mem
      ensures mem == Take(old(mem), prevp, p, nunits, 0) && q == p + old(mem[p].size) - nunits
    {
      q := p;
      if mem[p].size == nunits {
        mem := mem[prevp := mem[prevp].(ptr := mem[p].ptr)];
      } else {
        mem := mem[p := mem[p].(size := mem[p].size - nunits)];
        q := p + mem[p].size;
        mem := mem[q := Header(0, nunits)];
      }
    }

    /** The start of malloc(): on the first call the ring gets its one node. */
    method Begin() returns (prevp: nat)
      requires Valid()
      modifies `mem, `freep, `here
      ensures Valid() && prevp == freep != 0 && (old(freep) != 0 ==> here == old(here))
    {
      prevp := freep;
      if prevp == 0 {
        prevp, freep := base, base;
        mem, here := mem[base := Header(base, 0)], 0;
        assert Linked(mem, Nodes(base, h.blocks), 0);
      }
    }

    /**
      One lap of the loop of malloc(), from the node behind freep to freep itself: it finds
      a block exactly when one fits, the first one on its way.
     */
    method Search(nunits: nat) returns (found: bool, prevp: nat, p: nat, ghost i: nat)
      requires Valid() && freep != 0 && nunits > 0
      ensures found <==> Fits(h.blocks, nunits)
      ensures found ==> FirstFit(h.blocks, here, nunits, i)
      ensures found ==> prevp == Nodes(base, h.blocks)[i].at && p == h.blocks[i].at
    {
      ghost var k: nat := 0;
      prevp := freep;
      NodeAt(mem, Nodes(base, h.blocks), here);
      p := mem[prevp].ptr;
      while true
        invariant Walk(Nodes(base, h.blocks), here, k, nunits, prevp, p)
        decreases |h.blocks| - k
      {
        WalkAt(mem, Nodes(base, h.blocks), here, k, nunits, prevp, p);
        if mem[p].size >= nunits {
          WalkFits(base, mem, h.blocks, here, k, nunits, prevp, p);
          return true, prevp, p, Round(here, k, |h.blocks| + 1);
        }
        if p == freep {
          WalkFails(base, mem, h.blocks, here, k, nunits, prevp, p);
          return false, prevp, p, 0;
        }
        WalkOn(mem, Nodes(base, h.blocks), here, k, nunits, prevp, p);
        k, prevp, p := k + 1, p, mem[p].ptr;
      }
    }

    /**
      The loop of malloc() as its at most two laps: after morecore() a block fits, so the
      second lap never asks again.  On success the block is the end of free block i of the
      heap g that serves the request: the first that fits on the way from where the last call
      stopped, or from where the new memory was put in.
     */
    method Malloc(nbytes: nat, s: Sbrk) returns (r: nat, ghost g: Heap, ghost i: nat)
      requires Valid() && (nbytes <= MAX_REQUEST || Fits(h.blocks, UnitsFor(nbytes)))
      modifies this
      ensures Valid() && Serves(old(h), old(brk), UnitsFor(nbytes), s, g)
      ensures r == 0 <==> s.Refused? && !Fits(old(h.blocks), UnitsFor(nbytes))
      ensures r == 0 ==> h == old(h)
      ensures r != 0 ==> var n := UnitsFor(nbytes);
        i < |g.blocks| && n <= g.blocks[i].n && r - 1 == CutAt(g.blocks, i, n) && h == Given(g, i, n) && here == i
      ensures r != 0 ==> var n := UnitsFor(nbytes);
        FirstFit(g.blocks, if Fits(old(h.blocks), n) then old(here) else Resumes(old(h), old(brk), s), n, i)
    {
      var nunits := UnitsFor(nbytes);
      var prevp := Begin();
      var found, p;
      found, prevp, p, i := Search(nunits);
      if !found {
        p := Morecore(nunits, s);
        if p == 0 {
          return 0, h, 0;
        }
        found, prevp, p, i := Search(nunits);
      }
      g := h;
      r := HandOut(prevp, p, nunits, i);
    }
  }
}
