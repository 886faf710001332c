/**
  The memory that the user-level allocator (user/umalloc.c) got from sbrk, as it is
  divided between the free list and the blocks handed out.  A block handed out is known
  by the address of its header, and `live` maps that address to the block's size.
 */
module Arena {
  import opened FreeList

  datatype Heap = Heap(blocks: seq<Blk>, live: map<nat, nat>, arena: set<nat>)

  function Live(live: map<nat, nat>, a: nat): Blk
    requires a in live
  {
    Blk(a, live[a])
  }

  /** Unit x is in a block handed out. */
  ghost predicate Held(live: map<nat, nat>, x: nat) {
    exists a :: a in live && In(Live(live, a), x)
  }

  ghost predicate AllApart(live: map<nat, nat>) {
    forall a, c :: a in live && c in live && a != c ==> Apart(Live(live, a), Live(live, c))
  }

  /** Every unit of the arena is in exactly one free block or one block handed out. */
  ghost predicate Divided(h: Heap) {
    && Tidy(h.blocks)
    && (forall a :: a in h.live ==> h.live[a] > 0 && ApartFrom(h.blocks, Live(h.live, a)))
    && AllApart(h.live)
    && (forall x :: x in h.arena <==> Has(h.blocks, x) || Held(h.live, x))
  }

  /** All units of the arena lie below a. */
  ghost predicate Under(arena: set<nat>, a: nat) {
    forall x :: x in arena ==> x < a
  }

  /** free(): the block at a goes back to the list. */
  function Freed(h: Heap, a: nat): Heap
    requires a in h.live
  {
    h.(blocks := Insert(h.blocks, Live(h.live, a)), live := h.live - {a})
  }

  /** malloc(): the last n units of free block i are handed out. */
  function Given(h: Heap, i: nat, n: nat): Heap
    requires i < |h.blocks| && n <= h.blocks[i].n
  {
    h.(blocks := Cut(h.blocks, i, n), live := h.live[CutAt(h.blocks, i, n) := n])
  }

  ghost function Units(a: nat, n: nat): (r: set<nat>) {
    set x: nat | x < a + n && In(Blk(a, n), x)
  }

  /** sbrk(): n units at a join the arena, held by the allocator itself. */
  ghost function Grown(h: Heap, a: nat, n: nat): Heap {
    h.(live := h.live[a := n], arena := h.arena + Units(a, n))
  }

  /** morecore(): the new memory is freed at once. */
  ghost function Extended(h: Heap, a: nat, n: nat): (g: Heap)
  {
    Freed(Grown(h, a, n), a)
  }

  lemma ExtendedIs(h: Heap, a: nat, n: nat)
    requires a !in h.live
    ensures var g := Extended(h, a, n);
      g.live == h.live && g.arena == h.arena + Units(a, n) && g.blocks == Insert(h.blocks, Blk(a, n))
  {
  }

  /** Blocks are apart exactly when they share no unit. */
  lemma ApartHas(l: seq<Blk>, b: Blk)
    requires Tidy(l) && b.n > 0
    ensures ApartFrom(l, b) <==> forall x :: In(b, x) ==> !Has(l, x)
  {
    if !ApartFrom(l, b) {
      var i :| 0 <= i < |l| && !Apart(l[i], b);
      var x := if l[i].at < b.at then b.at else l[i].at;
      assert In(b, x) && In(l[i], x);
    }
  }

  lemma HeldBut(live: map<nat, nat>, a: nat, x: nat)
    requires a in live
    ensures Held(live, x) <==> Held(live - {a}, x) || In(Live(live, a), x)
  {
    if Held(live, x) && !In(Live(live, a), x) {
      var c :| c in live && In(Live(live, c), x);
      assert c in live - {a} && In(Live(live - {a}, c), x);
    }
    if Held(live - {a}, x) {
      var c :| c in live - {a} && In(Live(live - {a}, c), x);
      assert c in live && In(Live(live, c), x);
    }
  }

  lemma FreedDivided(h: Heap, a: nat)
    requires Divided(h) && a in h.live
    ensures Divided(Freed(h, a))
  {
    var g, b := Freed(h, a), Live(h.live, a);
    InsertTidy(h.blocks, b);
    forall x ensures Has(g.blocks, x) <==> Has(h.blocks, x) || In(b, x) {
      InsertHas(h.blocks, b, x);
    }
    forall c | c in g.live ensures ApartFrom(g.blocks, Live(g.live, c)) {
      assert Apart(b, Live(h.live, c));
      ApartHas(h.blocks, Live(h.live, c));
      ApartHas(g.blocks, Live(g.live, c));
    }
    forall c, d | c in g.live && d in g.live && c != d ensures Apart(Live(g.live, c), Live(g.live, d)) {
      assert Apart(Live(h.live, c), Live(h.live, d));
    }
    forall x ensures Held(h.live, x) <==> Held(g.live, x) || In(b, x) {
      HeldBut(h.live, a, x);
    }
  }

  /** What free() gives back: exactly the units of the block, which nobody has any more. */
  lemma FreedUnits(h: Heap, a: nat, x: nat)
    requires Divided(h) && a in h.live
    ensures var g := Freed(h, a);
      && g.arena == h.arena && a !in g.live
      && (forall c :: c in h.live && c != a ==> c in g.live && g.live[c] == h.live[c])
      && (Has(g.blocks, x) <==> Has(h.blocks, x) || In(Live(h.live, a), x))
      && (Held(g.live, x) <==> Held(h.live, x) && !In(Live(h.live, a), x))
  {
    FreedDivided(h, a);
    InsertHas(h.blocks, Live(h.live, a), x);
    HeldBut(h.live, a, x);
    if Held(h.live - {a}, x) {
      var c :| c in h.live - {a} && In(Live(h.live - {a}, c), x);
      assert Apart(Live(h.live, c), Live(h.live, a));
    }
  }

  /** A block that shares no unit with the blocks handed out can join them. */
  lemma HeldAdd(live: map<nat, nat>, a: nat, n: nat)
    requires AllApart(live) && n > 0 && forall x :: In(Blk(a, n), x) ==> !Held(live, x)
    requires forall c :: c in live ==> live[c] > 0
    ensures a !in live && AllApart(live[a := n])
    ensures forall x :: Held(live[a := n], x) <==> Held(live, x) || In(Blk(a, n), x)
  {
    var m := live[a := n];
    assert In(Blk(a, n), a);
    assert a in live ==> In(Live(live, a), a);
    forall c | c in live ensures Apart(Live(m, c), Blk(a, n)) && Apart(Blk(a, n), Live(m, c)) {
      var x := if a < c then c else a;
      assert !Apart(Live(m, c), Blk(a, n)) ==> In(Live(live, c), x) && In(Blk(a, n), x);
    }
    forall c, d | c in m && d in m && c != d ensures Apart(Live(m, c), Live(m, d)) {
      if c != a && d != a { assert Apart(Live(live, c), Live(live, d)); }
    }
    assert m - {a} == live;
    forall x ensures Held(m, x) <==> Held(live, x) || In(Blk(a, n), x) {
      HeldBut(m, a, x);
    }
  }

  lemma GivenDivided(h: Heap, i: nat, n: nat)
    requires Divided(h) && i < |h.blocks| && 0 < n <= h.blocks[i].n
    ensures CutAt(h.blocks, i, n) !in h.live && Divided(Given(h, i, n))
  {
    var g, b := Given(h, i, n), Blk(CutAt(h.blocks, i, n), n);
    CutTidy(h.blocks, i, n);
    forall x
      ensures Has(h.blocks, x) <==> Has(g.blocks, x) || In(b, x)
      ensures !(Has(g.blocks, x) && In(b, x))
    {
      CutHas(h.blocks, i, n, x);
    }
    forall x | In(b, x) ensures !Held(h.live, x) {
      if Held(h.live, x) {
        var c :| c in h.live && In(Live(h.live, c), x);
        ApartHas(h.blocks, Live(h.live, c));
      }
    }
    HeldAdd(h.live, b.at, n);
    forall c | c in g.live ensures ApartFrom(g.blocks, Live(g.live, c)) {
      ApartHas(g.blocks, Live(g.live, c));
      if c != b.at { ApartHas(h.blocks, Live(h.live, c)); }
    }
  }

  lemma GrownDivided(h: Heap, a: nat, n: nat)
    requires Divided(h) && n > 0 && Under(h.arena, a)
    ensures a !in h.live && Divided(Grown(h, a, n))
  {
    var g := Grown(h, a, n);
    HeldAdd(h.live, a, n);
    forall c | c in g.live ensures ApartFrom(g.blocks, Live(g.live, c)) {
      ApartHas(g.blocks, Live(g.live, c));
    }
  }

  lemma ExtendedDivided(h: Heap, a: nat, n: nat, g: Heap)
    requires Divided(h) && n > 0 && Under(h.arena, a) && g == Extended(h, a, n)
    ensures Divided(g) && g.live == h.live
  {
    GrownDivided(h, a, n);
    FreedDivided(Grown(h, a, n), a);
    ExtendedIs(h, a, n);
  }
}
