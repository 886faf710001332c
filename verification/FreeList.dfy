/**
  The free list of the user-level allocator (user/umalloc.c) as a list of blocks in
  address order.  Addresses and sizes are in units of one header.
 */
module FreeList {
  datatype Blk = Blk(at: nat, n: nat)

  /** Address order, no empty block, and no two blocks touch. */
  ghost predicate Tidy(l: seq<Blk>) {
    && (forall i :: 0 <= i < |l| ==> l[i].n > 0)
    && (forall i, j :: 0 <= i < j < |l| ==> l[i].at + l[i].n < l[j].at)
  }

  predicate In(b: Blk, x: nat) {
    b.at <= x < b.at + b.n
  }

  /** Unit x is in a block of the list. */
  ghost predicate Has(l: seq<Blk>, x: nat) {
    exists i :: 0 <= i < |l| && In(l[i], x)
  }

  ghost predicate Apart(b: Blk, c: Blk) {
    b.at + b.n <= c.at || c.at + c.n <= b.at
  }

  ghost predicate ApartFrom(l: seq<Blk>, b: Blk) {
    forall i :: 0 <= i < |l| ==> Apart(l[i], b)
  }

  /** Number of blocks that start below address a. */
  function Below(l: seq<Blk>, a: nat): (t: nat)
    ensures t <= |l|
    ensures forall i :: 0 <= i < t ==> l[i].at < a
    ensures t < |l| ==> l[t].at >= a
  {
    if l == [] || l[0].at >= a then 0 else 1 + Below(l[1..], a)
  }

  predicate JoinsLower(l: seq<Blk>, b: Blk) {
    var t := Below(l, b.at); t > 0 && l[t - 1].at + l[t - 1].n == b.at
  }

  predicate JoinsUpper(l: seq<Blk>, b: Blk) {
    var t := Below(l, b.at); t < |l| && b.at + b.n == l[t].at
  }

  /** The block b with the neighbours that it touches. */
  function Joined(l: seq<Blk>, b: Blk): Blk {
    var t := Below(l, b.at);
    var up := if JoinsUpper(l, b) then l[t].n else 0;
    if JoinsLower(l, b) then Blk(l[t - 1].at, l[t - 1].n + b.n + up) else Blk(b.at, b.n + up)
  }

  lemma HasConcat(a: seq<Blk>, c: seq<Blk>, x: nat)
    ensures Has(a + c, x) <==> Has(a, x) || Has(c, x)
  {
    if Has(a, x) {
      var i :| 0 <= i < |a| && In(a[i], x);
      assert In((a + c)[i], x);
    }
    if Has(c, x) {
      var i :| 0 <= i < |c| && In(c[i], x);
      assert In((a + c)[|a| + i], x);
    }
  }

  lemma HasParts(l: seq<Blk>, a: seq<Blk>, b: seq<Blk>, c: seq<Blk>, x: nat)
    requires l == a + b + c
    ensures Has(l, x) <==> Has(a, x) || Has(b, x) || Has(c, x)
  {
    HasConcat(a + b, c, x);
    HasConcat(a, b, x);
  }

  lemma HasOne(b: Blk, x: nat)
    ensures Has([b], x) <==> In(b, x)
  {
    assert Has([b], x) <==> In([b][0], x);
  }

  lemma TidyParts(a: seq<Blk>, b: Blk, c: seq<Blk>)
    requires Tidy(a) && Tidy(c) && b.n > 0
    requires a != [] ==> a[|a| - 1].at + a[|a| - 1].n < b.at
    requires c != [] ==> b.at + b.n < c[0].at
    ensures Tidy(a + [b] + c)
  {
    var r := a + [b] + c;
    forall i, j | 0 <= i < j < |r| ensures r[i].at + r[i].n < r[j].at {
      if i < |a| { assert a[i].at + a[i].n <= a[|a| - 1].at + a[|a| - 1].n; }
      if j > |a| { assert c[0].at <= c[j - |a| - 1].at; }
    }
  }

  /** The first block of the list that b is merged with or put before, and the one after b. */
  function Low(l: seq<Blk>, b: Blk): (k: nat)
    ensures k <= High(l, b)
  {
    if JoinsLower(l, b) then Below(l, b.at) - 1 else Below(l, b.at)
  }

  function High(l: seq<Blk>, b: Blk): (m: nat)
    ensures m <= |l|
  {
    if JoinsUpper(l, b) then Below(l, b.at) + 1 else Below(l, b.at)
  }

  /** The list after b is freed. */
  function Insert(l: seq<Blk>, b: Blk): seq<Blk> {
    l[..Low(l, b)] + [Joined(l, b)] + l[High(l, b)..]
  }

  /** The merged block leaves a gap on both sides. */
  lemma JoinedBetween(l: seq<Blk>, b: Blk)
    requires Tidy(l) && b.n > 0 && ApartFrom(l, b)
    ensures var k, m, c := Low(l, b), High(l, b), Joined(l, b);
      c.n > 0 && (k > 0 ==> l[k - 1].at + l[k - 1].n < c.at) && (m < |l| ==> c.at + c.n < l[m].at)
  {
    var t := Below(l, b.at);
    assert t > 0 ==> Apart(l[t - 1], b);
    assert t < |l| ==> Apart(l[t], b);
  }

  lemma InsertTidy(l: seq<Blk>, b: Blk)
    requires Tidy(l) && b.n > 0 && ApartFrom(l, b)
    ensures Tidy(Insert(l, b))
  {
    JoinedBetween(l, b);
    TidyParts(l[..Low(l, b)], Joined(l, b), l[High(l, b)..]);
  }

  /** The merged block covers b and the blocks it replaces. */
  lemma JoinedHas(l: seq<Blk>, b: Blk, x: nat)
    requires Tidy(l) && b.n > 0 && ApartFrom(l, b)
    ensures In(Joined(l, b), x) <==> Has(l[Low(l, b)..High(l, b)], x) || In(b, x)
  {
    var t := Below(l, b.at);
    var mid := l[Low(l, b)..High(l, b)];
    if JoinsLower(l, b) { assert mid[0] == l[t - 1]; }
    if JoinsUpper(l, b) { assert mid[|mid| - 1] == l[t]; }
    if In(Joined(l, b), x) && !In(b, x) {
      assert In(mid[if x < b.at then 0 else |mid| - 1], x);
    }
  }

  /** Freeing adds exactly the units of b. */
  lemma InsertHas(l: seq<Blk>, b: Blk, x: nat)
    requires Tidy(l) && b.n > 0 && ApartFrom(l, b)
    ensures Has(Insert(l, b), x) <==> Has(l, x) || In(b, x)
  {
    var k, m := Low(l, b), High(l, b);
    JoinedHas(l, b, x);
    HasParts(l, l[..k], l[k..m], l[m..], x);
    HasParts(Insert(l, b), l[..k], [Joined(l, b)], l[m..], x);
    HasOne(Joined(l, b), x);
  }

  /** The list after n units are cut from the end of block i, and where they start. */
  function Cut(l: seq<Blk>, i: nat, n: nat): seq<Blk>
    requires i < |l| && n <= l[i].n
  {
    if l[i].n == n then l[..i] + l[i + 1..] else l[i := Blk(l[i].at, l[i].n - n)]
  }

  function CutAt(l: seq<Blk>, i: nat, n: nat): nat
    requires i < |l| && n <= l[i].n
  {
    l[i].at + l[i].n - n
  }

  lemma CutTidy(l: seq<Blk>, i: nat, n: nat)
    requires Tidy(l) && i < |l| && 0 < n <= l[i].n
    ensures Tidy(Cut(l, i, n))
  {
  }

  /** Cutting removes exactly the units that are handed out. */
  lemma CutHas(l: seq<Blk>, i: nat, n: nat, x: nat)
    requires Tidy(l) && i < |l| && 0 < n <= l[i].n
    ensures Has(l, x) <==> Has(Cut(l, i, n), x) || In(Blk(CutAt(l, i, n), n), x)
    ensures !(Has(Cut(l, i, n), x) && In(Blk(CutAt(l, i, n), n), x))
  {
    var rest := if l[i].n == n then [] else [Blk(l[i].at, l[i].n - n)];
    HasOne(l[i], x);
    HasOne(Blk(l[i].at, l[i].n - n), x);
    HasParts(l, l[..i], [l[i]], l[i + 1..], x);
    HasParts(Cut(l, i, n), l[..i], rest, l[i + 1..], x);
    if In(l[i], x) { CutApart(l, i, x); }
  }

  /** A unit of block i is in no other block. */
  lemma CutApart(l: seq<Blk>, i: nat, x: nat)
    requires Tidy(l) && i < |l| && In(l[i], x)
    ensures !Has(l[..i], x) && !Has(l[i + 1..], x)
  {
  }
}
