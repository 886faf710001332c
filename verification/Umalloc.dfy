/**
  The code of user/umalloc.c: a circular list of free blocks through their headers.

  An address counts units of one header; 0 is the null pointer.  The static header
  `base` lies below all memory that sbrk returns.  The header ring is shown to hold the
  list of module FreeList, and free and live blocks to divide the memory from sbrk.
 */
module Umalloc {
  import opened FreeList
  import opened Arena

  const HEADER: nat := 16            // sizeof(Header)
  const MINCORE: nat := 4096         // least number of units asked of sbrk

  datatype Header = Header(ptr: nat, size: nat)

  type Memory = map<nat, Header>

  /** Units for a request: the payload rounded up, and one header. */
  function UnitsFor(nbytes: nat): (n: nat)
    ensures n > 0 && (n - 1) * HEADER >= nbytes && (n - 1) * HEADER < nbytes + HEADER
  {
    (nbytes + HEADER - 1) / HEADER + 1
  }

  /** The nodes of the ring: `base`, of size 0, then the free blocks in address order. */
  function Nodes(base: nat, l: seq<Blk>): seq<Blk> {
    [Blk(base, 0)] + l
  }

  /** The address behind node i; behind the last node comes the first. */
  function After(nodes: seq<Blk>, i: nat): nat
    requires i < |nodes|
  {
    if i + 1 < |nodes| then nodes[i + 1].at else nodes[0].at
  }

  /** Node i's header is right. */
  ghost predicate Linked(mem: Memory, nodes: seq<Blk>, i: nat)
    requires i < |nodes|
  {
    nodes[i].at in mem && mem[nodes[i].at] == Header(After(nodes, i), nodes[i].n)
  }

  ghost predicate Ring(mem: Memory, nodes: seq<Blk>) {
    |nodes| > 0 && forall i :: 0 <= i < |nodes| ==> Linked(mem, nodes, i)
  }

  /** Node addresses go up; blocks may touch. */
  ghost predicate Ordered(nodes: seq<Blk>) {
    forall i, j :: 0 <= i < j < |nodes| ==> nodes[i].at < nodes[j].at
  }

  /** Link block b behind node t, without merging. */
  lemma LinkRing(mem: Memory, nodes: seq<Blk>, t: nat, b: Blk)
    requires Ring(mem, nodes) && t < |nodes| && Ordered(nodes[..t + 1] + [b] + nodes[t + 1..])
    ensures nodes[t].at in mem
    ensures var p := nodes[t].at;
      Ring(mem[b.at := Header(mem[p].ptr, b.n)][p := mem[p].(ptr := b.at)], nodes[..t + 1] + [b] + nodes[t + 1..])
  {
    assert Linked(mem, nodes, t);
    var p := nodes[t].at;
    var m := mem[b.at := Header(mem[p].ptr, b.n)][p := mem[p].(ptr := b.at)];
    var r := nodes[..t + 1] + [b] + nodes[t + 1..];
    assert r[t] == nodes[t] && r[t + 1] == b;
    forall i | 0 <= i < |r| ensures Linked(m, r, i) {
      if i < t {
        assert Linked(mem, nodes, i) && r[i] == nodes[i] && r[i + 1] == nodes[i + 1];
      } else if i > t + 1 {
        assert Linked(mem, nodes, i - 1) && r[i] == nodes[i - 1];
      }
    }
  }

  /** Let node i take over its successor. */
  lemma MergeRing(mem: Memory, nodes: seq<Blk>, i: nat)
    requires Ring(mem, nodes) && Ordered(nodes) && i + 1 < |nodes|
    ensures var a, c := nodes[i], nodes[i + 1];
      c.at in mem &&
      Ring(mem[a.at := Header(mem[c.at].ptr, a.n + c.n)], nodes[..i] + [Blk(a.at, a.n + c.n)] + nodes[i + 2..])
  {
    var a, c := nodes[i], nodes[i + 1];
    assert Linked(mem, nodes, i) && Linked(mem, nodes, i + 1);
    var m := mem[a.at := Header(mem[c.at].ptr, a.n + c.n)];
    var r := nodes[..i] + [Blk(a.at, a.n + c.n)] + nodes[i + 2..];
    assert r[i] == Blk(a.at, a.n + c.n);
    forall j | 0 <= j < |r| ensures Linked(m, r, j) {
      if j < i {
        assert Linked(mem, nodes, j) && r[j] == nodes[j] && r[j + 1].at == nodes[j + 1].at;
      } else if j > i {
        assert Linked(mem, nodes, j + 1) && r[j] == nodes[j + 1];
      }
    }
  }

  /** Take node i out of the ring. */
  lemma UnlinkRing(mem: Memory, nodes: seq<Blk>, i: nat)
    requires Ring(mem, nodes) && Ordered(nodes) && 0 < i < |nodes|
    ensures var p, a := nodes[i - 1].at, nodes[i].at;
      p in mem && a in mem && Ring(mem[p := mem[p].(ptr := mem[a].ptr)], nodes[..i] + nodes[i + 1..])
  {
    var p, a := nodes[i - 1].at, nodes[i].at;
    assert Linked(mem, nodes, i - 1) && Linked(mem, nodes, i);
    var m := mem[p := mem[p].(ptr := mem[a].ptr)];
    var r := nodes[..i] + nodes[i + 1..];
    forall j | 0 <= j < |r| ensures Linked(m, r, j) {
      if j < i - 1 {
        assert Linked(mem, nodes, j) && r[j] == nodes[j] && r[j + 1] == nodes[j + 1];
      } else if j >= i {
        assert Linked(mem, nodes, j + 1) && r[j] == nodes[j + 1];
      }
    }
  }

  /** The assignments of free() once the place p of the block bp is found. */
  function Unite(mem: Memory, p: nat, bp: nat): (m: Memory)
    requires p in mem && bp in mem && mem[p].ptr in mem
  {
    var q := mem[p].ptr;
    var m := if bp + mem[bp].size == q
             then mem[bp := Header(mem[q].ptr, mem[bp].size + mem[q].size)]
             else mem[bp := mem[bp].(ptr := q)];
    if p + m[p].size == bp then m[p := Header(m[bp].ptr, m[p].size + m[bp].size)] else m[p := m[p].(ptr := bp)]
  }

  ghost predicate Above(base: nat, l: seq<Blk>) {
    forall i :: 0 <= i < |l| ==> base < l[i].at
  }

  lemma OrderedInsert(nodes: seq<Blk>, t: nat, b: Blk)
    requires Ordered(nodes) && t < |nodes| && nodes[t].at < b.at
    requires t + 1 < |nodes| ==> b.at < nodes[t + 1].at
    ensures Ordered(nodes[..t + 1] + [b] + nodes[t + 1..])
  {
    var r := nodes[..t + 1] + [b] + nodes[t + 1..];
    forall i, j | 0 <= i < j < |r| ensures r[i].at < r[j].at {
      assert i < t + 1 ==> r[i].at <= nodes[t].at;
      assert j > t + 1 ==> r[j].at >= nodes[t + 1].at;
    }
  }

  lemma NodesOrdered(base: nat, l: seq<Blk>)
    requires Tidy(l) && Above(base, l)
    ensures Ordered(Nodes(base, l))
  {
  }

  /** The nodes between which the block that is freed belongs. */
  lemma PlaceOf(base: nat, l: seq<Blk>, b: Blk)
    requires Tidy(l) && base < b.at && b.n > 0 && ApartFrom(l, b)
    ensures var t := Below(l, b.at);
      Nodes(base, l)[t].at < b.at && (t < |l| ==> b.at < Nodes(base, l)[t + 1].at)
  {
    var t := Below(l, b.at);
    assert t < |l| ==> Apart(l[t], b);
  }

  lemma TidyOrdered(base: nat, l: seq<Blk>, b: Blk)
    requires Tidy(l) && Above(base, l) && base < b.at && b.n > 0 && ApartFrom(l, b)
    ensures var t := Below(l, b.at);
      Ordered(Nodes(base, l)[..t + 1] + [b] + Nodes(base, l)[t + 1..])
  {
    PlaceOf(base, l, b);
    assert Ordered(Nodes(base, l)) by { NodesOrdered(base, l); }
    OrderedInsert(Nodes(base, l), Below(l, b.at), b);
  }

  /** Where the block that is freed meets its neighbours. */
  lemma UniteJoins(base: nat, mem: Memory, l: seq<Blk>, b: Blk)
    requires Ring(mem, Nodes(base, l)) && Tidy(l) && Above(base, l)
    requires base < b.at && b.n > 0 && ApartFrom(l, b) && b.at in mem && mem[b.at].size == b.n
    ensures var t := Below(l, b.at);
      var p := Nodes(base, l)[t].at;
      && p in mem && mem[p].ptr in mem && p != b.at && mem[p].ptr != b.at
      && (b.at + b.n == mem[p].ptr <==> JoinsUpper(l, b))
      && (p + mem[p].size == b.at <==> JoinsLower(l, b))
      && mem[p].ptr == After(Nodes(base, l), t)
  {
    var t := Below(l, b.at);
    var nodes := Nodes(base, l);
    assert Linked(mem, nodes, t);
    assert Linked(mem, nodes, if t + 1 < |nodes| then t + 1 else 0);
    assert t < |l| ==> Apart(l[t], b);
  }

  /** The nodes and the memory after bp is linked in and has taken over the block above it. */
  function UpperNodes(nodes: seq<Blk>, t: nat, b: Blk, up: bool): seq<Blk>
    requires t < |nodes| && (up ==> t + 1 < |nodes|)
  {
    if up then nodes[..t + 1] + [Blk(b.at, b.n + nodes[t + 1].n)] + nodes[t + 2..]
    else nodes[..t + 1] + [b] + nodes[t + 1..]
  }

  function UpperMem(mem: Memory, p: nat, b: Blk, up: bool): Memory
    requires p in mem && mem[p].ptr in mem
  {
    var q := mem[p].ptr;
    mem[b.at := if up then Header(mem[q].ptr, b.n + mem[q].size) else Header(q, b.n)][p := mem[p].(ptr := b.at)]
  }

  lemma UpperRing(mem: Memory, nodes: seq<Blk>, t: nat, b: Blk, up: bool)
    requires Ring(mem, nodes) && t < |nodes| && (up ==> t + 1 < |nodes|)
    requires Ordered(nodes[..t + 1] + [b] + nodes[t + 1..])
    ensures var p := nodes[t].at;
      && p in mem && mem[p].ptr in mem
      && Ring(UpperMem(mem, p, b, up), UpperNodes(nodes, t, b, up))
      && Ordered(UpperNodes(nodes, t, b, up))
  {
    var p := nodes[t].at;
    assert Linked(mem, nodes, t) && Linked(mem, nodes, if t + 1 < |nodes| then t + 1 else 0);
    LinkRing(mem, nodes, t, b);
    if up {
      var n1 := nodes[..t + 1] + [b] + nodes[t + 1..];
      var m1 := mem[b.at := Header(mem[p].ptr, b.n)][p := mem[p].(ptr := b.at)];
      assert n1[t + 1] == b && n1[t] == nodes[t] && n1[t + 2] == nodes[t + 1] && n1[t + 3..] == nodes[t + 2..];
      assert n1[..t + 1] == nodes[..t + 1];
      MergeRing(m1, n1, t + 1);
      var q := nodes[t + 1].at;
      assert m1[b.at := Header(m1[q].ptr, b.n + nodes[t + 1].n)] == UpperMem(mem, p, b, up);
    }
  }

  /** The block above b, and b with it if they meet. */
  function Upper(l: seq<Blk>, t: nat, b: Blk, up: bool): seq<Blk>
    requires t <= |l| && (up ==> t < |l|)
  {
    if up then [Blk(b.at, b.n + l[t].n)] + l[t + 1..] else [b] + l[t..]
  }

  lemma UpperParts(z: Blk, l: seq<Blk>, t: nat, b: Blk, up: bool)
    requires t <= |l| && (up ==> t < |l|)
    ensures UpperNodes([z] + l, t, b, up) == [z] + l[..t] + Upper(l, t, b, up)
  {
    assert ([z] + l)[..t + 1] == [z] + l[..t];
    assert ([z] + l)[t + 1..] == l[t..];
    if up { assert ([z] + l)[t + 2..] == l[t + 1..]; }
  }

  lemma LowerParts(z: Blk, l: seq<Blk>, t: nat, c: seq<Blk>)
    requires 0 < t <= |l| && c != []
    ensures var n := [z] + l[..t] + c;
      n[..t] + [Blk(n[t].at, n[t].n + n[t + 1].n)] + n[t + 2..]
      == [z] + (l[..t - 1] + [Blk(l[t - 1].at, l[t - 1].n + c[0].n)] + c[1..])
  {
    var n := [z] + l[..t] + c;
    assert n[..t] == [z] + l[..t - 1] && n[t] == l[t - 1] && n[t + 1] == c[0] && n[t + 2..] == c[1..];
  }

  /** What the insertion makes of the list, for any place t. */
  function Splice(l: seq<Blk>, t: nat, b: Blk, low: bool, up: bool): seq<Blk>
    requires t <= |l| && (up ==> t < |l|) && (low ==> t > 0)
  {
    var u := if up then l[t].n else 0;
    var j := if low then Blk(l[t - 1].at, l[t - 1].n + b.n + u) else Blk(b.at, b.n + u);
    l[..if low then t - 1 else t] + [j] + l[if up then t + 1 else t..]
  }

  /** The spliced list is what is left of the nodes once the block below took over b. */
  lemma SpliceNodes(z: Blk, l: seq<Blk>, t: nat, b: Blk, low: bool, up: bool)
    requires t <= |l| && (up ==> t < |l|) && (low ==> t > 0)
    ensures var n := UpperNodes([z] + l, t, b, up);
      [z] + Splice(l, t, b, low, up) ==
        if low then n[..t] + [Blk(n[t].at, n[t].n + n[t + 1].n)] + n[t + 2..] else n
  {
    var c := Upper(l, t, b, up);
    UpperParts(z, l, t, b, up);
    if low {
      LowerParts(z, l, t, c);
      assert Splice(l, t, b, low, up) == l[..t - 1] + [Blk(l[t - 1].at, l[t - 1].n + c[0].n)] + c[1..];
    } else {
      assert Splice(l, t, b, low, up) == l[..t] + c;
      assert [z] + l[..t] + c == [z] + (l[..t] + c);
    }
  }

  lemma UniteMem(mem: Memory, p: nat, b: Blk)
    requires p in mem && b.at in mem && mem[p].ptr in mem && mem[b.at].size == b.n
    requires p != b.at && mem[p].ptr != b.at
    ensures var m := UpperMem(mem, p, b, b.at + b.n == mem[p].ptr);
      Unite(mem, p, b.at) ==
        if p + mem[p].size == b.at then m[p := Header(m[b.at].ptr, mem[p].size + m[b.at].size)] else m
  {
  }

  lemma UniteSplice(mem: Memory, z: Blk, l: seq<Blk>, t: nat, b: Blk, low: bool, up: bool)
    requires Ring(mem, [z] + l) && t <= |l| && (up ==> t < |l|) && (low ==> t > 0)
    requires Ordered(([z] + l)[..t + 1] + [b] + ([z] + l)[t + 1..]) && b.at in mem && mem[b.at].size == b.n
    requires var p := ([z] + l)[t].at;
      && p in mem && mem[p].ptr in mem && p != b.at && mem[p].ptr != b.at
      && (b.at + b.n == mem[p].ptr <==> up) && (p + mem[p].size == b.at <==> low)
    ensures Ring(Unite(mem, ([z] + l)[t].at, b.at), [z] + Splice(l, t, b, low, up))
  {
    var nodes := [z] + l;
    var p := nodes[t].at;
    UpperRing(mem, nodes, t, b, up);
    SpliceNodes(z, l, t, b, low, up);
    UniteMem(mem, p, b);
    if low {
      var n, m := UpperNodes(nodes, t, b, up), UpperMem(mem, p, b, up);
      assert Linked(m, n, t) && Linked(m, n, t + 1);
      MergeRing(m, n, t);
    }
  }

  /** free() turns the ring of the list into the ring of the list with the block inserted. */
  lemma UniteRing(base: nat, mem: Memory, l: seq<Blk>, b: Blk)
    requires Ring(mem, Nodes(base, l)) && Tidy(l) && Above(base, l)
    requires base < b.at && b.n > 0 && ApartFrom(l, b) && b.at in mem && mem[b.at].size == b.n
    ensures var p := Nodes(base, l)[Below(l, b.at)].at;
      p in mem && mem[p].ptr in mem && Ring(Unite(mem, p, b.at), Nodes(base, Insert(l, b)))
  {
    var t := Below(l, b.at);
    UniteJoins(base, mem, l, b);
    TidyOrdered(base, l, b);
    UniteSplice(mem, Blk(base, 0), l, t, b, JoinsLower(l, b), JoinsUpper(l, b));
    assert Insert(l, b) == Splice(l, t, b, JoinsLower(l, b), JoinsUpper(l, b));
  }

  /**
    The allocator's memory holds the heap h: the ring is the free list, headers of blocks
    handed out hold their sizes, and freep is node `here` of the ring, or null at the start.
   */
  ghost predicate Holds(base: nat, mem: Memory, freep: nat, here: nat, h: Heap, brk: nat) {
    && 0 < base < brk && Divided(h) && Above(base, h.blocks)
    && (forall a :: a in h.live ==> base < a && a in mem && mem[a].size == h.live[a])
    && Under(h.arena, brk)
    && (freep == 0 ==> h.blocks == [] && h.live == map[])
    && (freep != 0 ==>
          Ring(mem, Nodes(base, h.blocks)) && here <= |h.blocks| && Nodes(base, h.blocks)[here].at == freep)
  }

  lemma NodeAt(mem: Memory, nodes: seq<Blk>, i: nat)
    requires Ring(mem, nodes) && i < |nodes|
    ensures nodes[i].at in mem && mem[nodes[i].at] == Header(After(nodes, i), nodes[i].n)
    ensures After(nodes, i) in mem
  {
    assert Linked(mem, nodes, i);
    assert Linked(mem, nodes, if i + 1 < |nodes| then i + 1 else 0);
  }

  /** The two ways out of the loop of free(): between p and its successor q, or at the end of the ring. */
  predicate Stops(bp: nat, p: nat, q: nat) {
    (bp > p && bp < q) || (p >= q && (bp > p || bp < q))
  }

  /** The search of free() stops at node i exactly when the block belongs behind it. */
  lemma StopsAt(nodes: seq<Blk>, a: nat, t: nat, i: nat)
    requires Ordered(nodes) && t < |nodes| && i < |nodes| && nodes[t].at < a
    requires t + 1 < |nodes| ==> a < nodes[t + 1].at
    ensures i == t <==> Stops(a, nodes[i].at, After(nodes, i))
  {
    if i < t {
      assert nodes[i + 1].at <= nodes[t].at;
    } else if i > t {
      assert nodes[t + 1].at <= nodes[i].at && nodes[0].at <= nodes[t].at;
    }
  }

  lemma AboveParts(base: nat, a: seq<Blk>, b: Blk, c: seq<Blk>)
    requires Above(base, a) && base < b.at && Above(base, c)
    ensures Above(base, a + [b] + c)
  {
  }

  lemma InsertAbove(base: nat, l: seq<Blk>, b: Blk)
    requires Above(base, l) && base < b.at
    ensures Above(base, Insert(l, b))
  {
    assert base < Joined(l, b).at;
    AboveParts(base, l[..Low(l, b)], Joined(l, b), l[High(l, b)..]);
  }

  /** The block is linked in behind the node that was before it. */
  lemma InsertPlace(base: nat, l: seq<Blk>, b: Blk)
    ensures Below(l, b.at) <= |Insert(l, b)|
    ensures Nodes(base, Insert(l, b))[Below(l, b.at)].at == Nodes(base, l)[Below(l, b.at)].at
  {
    assert Insert(l, b)[Low(l, b)] == Joined(l, b);
  }

  /** free() writes no header of another block handed out. */
  lemma UniteKeeps(base: nat, mem: Memory, h: Heap, i: nat, a: nat, c: nat)
    requires Divided(h) && c in h.live && base < c && c != a && c in mem && i <= |h.blocks|
    requires var p := Nodes(base, h.blocks)[i].at; p in mem && mem[p].ptr in mem && a in mem
    ensures var m := Unite(mem, Nodes(base, h.blocks)[i].at, a); c in m && m[c] == mem[c]
  {
    if i > 0 { assert Apart(h.blocks[i - 1], Live(h.live, c)); }
  }

  lemma FreeHolds(base: nat, mem: Memory, freep: nat, here: nat, h: Heap, brk: nat, a: nat)
    requires Holds(base, mem, freep, here, h, brk) && a in h.live
    ensures var t := Below(h.blocks, a);
      var p := Nodes(base, h.blocks)[t].at;
      && p in mem && mem[p].ptr in mem
      && Holds(base, Unite(mem, p, a), p, t, Freed(h, a), brk)
  {
    var b, t := Live(h.live, a), Below(h.blocks, a);
    var p, g := Nodes(base, h.blocks)[t].at, Freed(h, a);
    UniteRing(base, mem, h.blocks, b);
    assert Divided(g) by { FreedDivided(h, a); }
    InsertAbove(base, h.blocks, b);
    InsertPlace(base, h.blocks, b);
    assert p != 0;
    var m := Unite(mem, p, a);
    forall c | c in g.live ensures base < c && c in m && m[c].size == g.live[c] {
      UniteKeeps(base, mem, h, t, a, c);
    }
  }

  /** The assignments of malloc() once a block p behind prevp fits; `junk` is what p's new header held as a pointer. */
  function Take(mem: Memory, prevp: nat, p: nat, n: nat, junk: nat): Memory
    requires prevp in mem && p in mem && mem[p].size >= n
  {
    var rest := mem[p].size - n;
    if rest == 0 then mem[prevp := mem[prevp].(ptr := mem[p].ptr)]
    else mem[p := mem[p].(size := rest)][p + rest := Header(junk, n)]
  }

  /** Shorten node i, and write a header that is no node's. */
  lemma ShrinkRing(mem: Memory, nodes: seq<Blk>, i: nat, n: nat, q: nat, x: Header)
    requires Ring(mem, nodes) && Ordered(nodes) && i < |nodes|
    requires forall k :: 0 <= k < |nodes| ==> nodes[k].at != q
    ensures var a := nodes[i].at;
      a in mem && Ring(mem[a := mem[a].(size := n)][q := x], nodes[i := Blk(a, n)])
  {
    var a := nodes[i].at;
    assert Linked(mem, nodes, i);
    var m, r := mem[a := mem[a].(size := n)][q := x], nodes[i := Blk(a, n)];
    forall j | 0 <= j < |r| ensures Linked(m, r, j) {
      assert Linked(mem, nodes, j);
    }
  }

  lemma CutNodes(base: nat, l: seq<Blk>, i: nat, n: nat)
    requires i < |l| && 0 < n <= l[i].n
    ensures l[i].n == n ==> Nodes(base, Cut(l, i, n)) == Nodes(base, l)[..i + 1] + Nodes(base, l)[i + 2..]
    ensures l[i].n != n ==> Nodes(base, Cut(l, i, n)) == Nodes(base, l)[i + 1 := Blk(l[i].at, l[i].n - n)]
  {
    if l[i].n == n {
      assert Nodes(base, l)[..i + 1] == [Blk(base, 0)] + l[..i];
      assert Nodes(base, l)[i + 2..] == l[i + 1..];
    }
  }

  /** The header of the block cut off is not a node's. */
  lemma CutFresh(base: nat, l: seq<Blk>, i: nat, n: nat, k: nat)
    requires Tidy(l) && Above(base, l) && i < |l| && 0 < n < l[i].n && k <= |l|
    ensures Nodes(base, l)[k].at != CutAt(l, i, n)
  {
    if k > 0 { assert Nodes(base, l)[k] == l[k - 1]; }
  }

  /** The block has more units than malloc() takes. */
  lemma TakeSome(base: nat, mem: Memory, l: seq<Blk>, i: nat, n: nat, junk: nat)
    requires Ring(mem, Nodes(base, l)) && Tidy(l) && Above(base, l) && i < |l| && 0 < n < l[i].n
    requires var prevp, p := Nodes(base, l)[i].at, l[i].at; prevp in mem && p in mem && mem[p].size == l[i].n
    ensures Ring(Take(mem, Nodes(base, l)[i].at, l[i].at, n, junk), Nodes(base, l)[i + 1 := Blk(l[i].at, l[i].n - n)])
  {
    var nodes, k, q := Nodes(base, l), i + 1, CutAt(l, i, n);
    assert Ordered(nodes) by { NodesOrdered(base, l); }
    forall j | 0 <= j < |nodes| ensures nodes[j].at != q {
      CutFresh(base, l, i, n, j);
    }
    assert nodes[k] == l[i];
    ShrinkRing(mem, nodes, k, l[i].n - n, q, Header(junk, n));
  }

  lemma TakeRing(base: nat, mem: Memory, l: seq<Blk>, i: nat, n: nat, junk: nat)
    requires Ring(mem, Nodes(base, l)) && Tidy(l) && Above(base, l) && i < |l| && 0 < n <= l[i].n
    ensures var prevp, p := Nodes(base, l)[i].at, l[i].at;
      && prevp in mem && p in mem && mem[p] == Header(After(Nodes(base, l), i + 1), l[i].n)
      && Ring(Take(mem, prevp, p, n, junk), Nodes(base, Cut(l, i, n)))
  {
    var nodes := Nodes(base, l);
    NodeAt(mem, nodes, i);
    NodeAt(mem, nodes, i + 1);
    assert Ordered(nodes) by { NodesOrdered(base, l); }
    CutNodes(base, l, i, n);
    if l[i].n == n {
      UnlinkRing(mem, nodes, i + 1);
    } else {
      TakeSome(base, mem, l, i, n, junk);
    }
  }

  /** malloc() writes no header of a block handed out before. */
  lemma TakeKeeps(base: nat, mem: Memory, h: Heap, i: nat, n: nat, junk: nat, c: nat)
    requires Divided(h) && c in h.live && base < c && c in mem && i < |h.blocks| && 0 < n <= h.blocks[i].n
    requires var prevp, p := Nodes(base, h.blocks)[i].at, h.blocks[i].at;
      prevp in mem && p in mem && mem[p].size == h.blocks[i].n
    ensures var m := Take(mem, Nodes(base, h.blocks)[i].at, h.blocks[i].at, n, junk); c in m && m[c] == mem[c]
  {
    if i > 0 { assert Apart(h.blocks[i - 1], Live(h.live, c)); }
    assert Apart(h.blocks[i], Live(h.live, c));
  }

  lemma TakeHolds(base: nat, mem: Memory, freep: nat, here: nat, h: Heap, brk: nat, i: nat, n: nat, junk: nat)
    requires Holds(base, mem, freep, here, h, brk) && freep != 0 && i < |h.blocks| && 0 < n <= h.blocks[i].n
    ensures var prevp, p := Nodes(base, h.blocks)[i].at, h.blocks[i].at;
      && prevp in mem && p in mem && mem[p].size == h.blocks[i].n
      && CutAt(h.blocks, i, n) !in h.live
      && Holds(base, Take(mem, prevp, p, n, junk), prevp, i, Given(h, i, n), brk)
  {
    var prevp, p, g := Nodes(base, h.blocks)[i].at, h.blocks[i].at, Given(h, i, n);
    TakeRing(base, mem, h.blocks, i, n, junk);
    GivenDivided(h, i, n);
    var m := Take(mem, prevp, p, n, junk);
    forall c | c in g.live ensures base < c && c in m && m[c].size == g.live[c] {
      if c in h.live { TakeKeeps(base, mem, h, i, n, junk, c); }
    }
    assert Above(base, g.blocks);
  }

  lemma GrowHolds(base: nat, mem: Memory, freep: nat, here: nat, h: Heap, brk: nat, a: nat, n: nat, junk: nat)
    requires Holds(base, mem, freep, here, h, brk) && freep != 0 && brk <= a && n > 0
    ensures a !in h.live && Holds(base, mem[a := Header(junk, n)], freep, here, Grown(h, a, n), a + n)
  {
    GrownDivided(h, a, n);
    var nodes, m := Nodes(base, h.blocks), mem[a := Header(junk, n)];
    forall i | 0 <= i < |nodes| ensures Linked(m, nodes, i) {
      assert Linked(mem, nodes, i);
      assert nodes[i].at != a by {
        if i > 0 {
          assert In(h.blocks[i - 1], nodes[i].at) && Has(h.blocks, nodes[i].at);
        }
      }
    }
  }
}
