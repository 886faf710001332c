/**
  Physical pages and Sv39 page tables, as kernel/vm.c and kernel/kalloc.c use them.

  A page is its 512 words.  `use` is a ghost account of what each page that kalloc manages
  is for; the tables of all address spaces are in `at`, by their place in the tree.
 */
module PageTables {
  import opened Params

  const MAXVPN: nat := 0x400_0000           // MAXVA / PGSIZE
  const USERVPN: nat := MAXVPN - 2          // pages below the trapframe are the process's own

  type Page = s: seq<nat> | |s| == 512 witness seq(512, i => 0)

  /** A page-table page: level 2 is the root; q numbers the tables of a level by address. */
  datatype Node = Node(root: nat, lvl: nat, q: nat)

  datatype Use =
    | Free                                  // on kalloc's list
    | Held                                  // allocated, not in any address space
    | Table(node: Node)
    | User(root: nat, vpn: nat)             // the memory of that page of that address space

  datatype St = St(mem: map<nat, Page>, free: seq<nat>, use: map<nat, Use>, at: map<Node, nat>)

  // --- Page table entries: section 4.4 of the RISC-V Privileged Architecture ---

  function PA2PTE(pa: nat): nat { pa / 4096 * 1024 }
  function PTE2PA(pte: nat): nat { pte / 1024 * 4096 }
  function Flags(pte: nat): nat { pte % 1024 }
  predicate V(pte: nat) { pte % 2 == 1 }

  /** No R, W or X bit: the entry points to a table. */
  predicate Inner(pte: nat) { pte % 16 / 2 == 0 }

  /** PA2PTE(pa) | perm | PTE_V */
  function Entry(pa: nat, perm: nat): nat
    requires perm < 1024
  {
    PA2PTE(pa) + if perm % 2 == 1 then perm else perm + 1
  }

  lemma EntryParts(k: nat, f: nat)
    requires f < 1024
    ensures (k * 1024 + f) / 1024 == k && (k * 1024 + f) % 1024 == f
    ensures (k * 1024 + f) % 2 == f % 2
  {
  }

  lemma EntryInner(k: nat, f: nat)
    ensures (k * 1024 + f) % 16 == f % 16
  {
  }

  /** Address and flags come back from an entry as they went in. */
  lemma EntryIs(pa: nat, perm: nat)
    requires perm < 1024 && pa % PGSIZE == 0
    ensures var e := Entry(pa, perm);
      V(e) && PTE2PA(e) == pa && Flags(e) == (if perm % 2 == 1 then perm else perm + 1) && (Inner(e) <==> Inner(perm))
  {
    EntryParts(pa / 4096, if perm % 2 == 1 then perm else perm + 1);
    EntryInner(pa / 4096, if perm % 2 == 1 then perm else perm + 1);
  }

  function Zeros(): Page { seq(512, i => 0) }

  // --- The trees ---

  function Place(root: nat, lvl: nat, v: nat): Node
    requires lvl <= 2
  {
    Node(root, lvl, if lvl == 2 then 0 else if lvl == 1 then v / 262144 else v / 512)
  }

  /** Bits 30..38, 21..29 or 12..20 of the address of page v. */
  function PX(lvl: nat, v: nat): (i: nat)
    requires lvl <= 2
    ensures i < 512
  {
    (if lvl == 2 then v / 262144 else if lvl == 1 then v / 512 else v) % 512
  }

  function Child(n: Node, i: nat): Node
    requires n.lvl > 0
  {
    Node(n.root, n.lvl - 1, n.q * 512 + i)
  }

  function Parent(n: Node): Node {
    Node(n.root, n.lvl + 1, n.q / 512)
  }

  lemma PlaceChild(root: nat, lvl: nat, v: nat)
    requires 0 < lvl <= 2 && v < MAXVPN
    ensures Child(Place(root, lvl, v), PX(lvl, v)) == Place(root, lvl - 1, v)
  {
  }

  /** The leaf entry of page v, 0 if there is no table for it. */
  function Leaf(s: St, root: nat, v: nat): nat {
    var n := Node(root, 0, v / 512);
    if n in s.at && s.at[n] in s.mem then s.mem[s.at[n]][v % 512] else 0
  }

  ghost predicate TableOk(s: St, n: Node)
    requires n in s.at
  {
    && s.at[n] in s.use && s.use[s.at[n]] == Table(n)
    && n.lvl <= 2 && (n.lvl == 2 ==> n.q == 0 && s.at[n] == n.root) && (n.lvl < 2 ==> Parent(n) in s.at)
    && (n.lvl == 0 ==> n.q < MAXVPN / 512)
  }

  /** Entry i of an inner table leads to the child, if there is one. */
  ghost predicate InnerOk(s: St, n: Node, i: nat)
    requires n in s.at && s.at[n] in s.mem && n.lvl > 0 && i < 512
  {
    var e := s.mem[s.at[n]][i];
    (V(e) <==> Child(n, i) in s.at) && (Child(n, i) in s.at ==> e == Entry(s.at[Child(n, i)], 0))
  }

  /** A valid leaf of the process's own memory has a page of its own. */
  ghost predicate LeafOk(s: St, root: nat, v: nat) {
    V(Leaf(s, root, v)) ==> PTE2PA(Leaf(s, root, v)) in s.use && s.use[PTE2PA(Leaf(s, root, v))] == User(root, v)
  }

  ghost predicate UseOk(s: St, p: nat)
    requires p in s.use
  {
    && p in s.mem && p > 0 && p % PGSIZE == 0
    && match s.use[p]
       case Free => p in s.free
       case Held => true
       case Table(n) => n in s.at && s.at[n] == p
       case User(r, v) => v < USERVPN && V(Leaf(s, r, v)) && PTE2PA(Leaf(s, r, v)) == p
  }

  ghost predicate NextOk(s: St, i: nat)
    requires i < |s.free|
  {
    s.free[i] in s.mem && s.mem[s.free[i]][0] == if i + 1 < |s.free| then s.free[i + 1] else 0
  }

  /** kalloc's list goes through the first words of the free pages. */
  ghost predicate ListOk(s: St) {
    && (forall i :: 0 <= i < |s.free| ==> s.free[i] in s.use && s.use[s.free[i]] == Free)
    && (forall i, j :: 0 <= i < j < |s.free| ==> s.free[i] != s.free[j])
    && (forall i :: 0 <= i < |s.free| ==> NextOk(s, i))
  }

  /** Every page has exactly one use, and trees, leaves and list agree with it. */
  ghost predicate Inv(s: St) {
    InvBut(s, {})
  }

  /** As Inv, but entries for the tables in `gone` may be left over. */
  ghost predicate InvBut(s: St, gone: set<Node>) {
    && (forall p {:trigger UseOk(s, p)} :: p in s.use ==> UseOk(s, p))
    && (forall n {:trigger TableOk(s, n)} :: n in s.at ==> TableOk(s, n))
    && (forall n, i {:trigger InnerOk(s, n, i)} ::
          n in s.at && n.lvl > 0 && 0 <= i < 512 && s.at[n] in s.mem && Child(n, i) !in gone ==> InnerOk(s, n, i))
    && (forall r, v :: 0 <= v < USERVPN ==> LeafOk(s, r, v))
    && ListOk(s)
  }

  // --- The steps ---

  /** kalloc(): the first page of the list, filled with d. */
  function Take(s: St, d: Page): St
    requires s.free != []
  {
    var p := s.free[0];
    St(s.mem[p := d], s.free[1..], s.use[p := Held], s.at)
  }

  /** kfree(): page p goes to the front of the list. */
  function Give(s: St, p: nat, d: Page): St {
    var next := if s.free == [] then 0 else s.free[0];
    St(s.mem[p := d[0 := next]], [p] + s.free, s.use[p := Free], s.at)
  }

  /** The contents of a page that is not a table. */
  function Fill(s: St, p: nat, d: Page): St {
    s.(mem := s.mem[p := d])
  }

  /** Page p, cleared, becomes table n. */
  function AddTable(s: St, n: Node, p: nat): St
    requires Parent(n) in s.at && s.at[Parent(n)] in s.mem
  {
    var pp := s.at[Parent(n)];
    St(s.mem[p := Zeros()][pp := s.mem[pp][n.q % 512 := Entry(p, 0)]], s.free, s.use[p := Table(n)], s.at[n := p])
  }

  /** Leaf entry v becomes w; u says what page pa is for then. */
  function SetLeaf(s: St, root: nat, v: nat, w: nat, pa: nat, u: Use): St
    requires Node(root, 0, v / 512) in s.at && s.at[Node(root, 0, v / 512)] in s.mem
  {
    var t := s.at[Node(root, 0, v / 512)];
    s.(mem := s.mem[t := s.mem[t][v % 512 := w]], use := if v < USERVPN then s.use[pa := u] else s.use)
  }

  /** Between s and t, only pages that are in no address space differ. */
  ghost predicate KeepsTrees(s: St, t: St) {
    && t.at == s.at
    && (forall n :: n in s.at && s.at[n] in s.mem ==> s.at[n] in t.mem && t.mem[s.at[n]] == s.mem[s.at[n]])
    && (forall p :: p in s.use && (s.use[p].Table? || s.use[p].User?) ==> p in t.use && t.use[p] == s.use[p])
    && (forall p :: p in t.use ==> p in t.mem && p > 0 && p % PGSIZE == 0)
    && (forall p :: p in t.use && (t.use[p].Table? || t.use[p].User?) ==> p in s.use && t.use[p] == s.use[p])
    && (forall p :: p in t.use && t.use[p].Free? ==> p in t.free)
  }

  lemma KeepsTreesInv(s: St, t: St, gone: set<Node>)
    requires InvBut(s, gone) && KeepsTrees(s, t) && ListOk(t)
    ensures InvBut(t, gone)
    ensures forall r, v: nat :: Leaf(t, r, v) == Leaf(s, r, v)
  {
    forall n | n in t.at ensures TableOk(t, n) && s.at[n] in s.mem {
      assert TableOk(s, n) && UseOk(s, s.at[n]);
    }
    forall r, v: nat ensures Leaf(t, r, v) == Leaf(s, r, v) {
    }
    forall c | c in t.use ensures UseOk(t, c) {
      if t.use[c].Table? || t.use[c].User? { assert UseOk(s, c); }
    }
    forall n, i | n in t.at && n.lvl > 0 && 0 <= i < 512 && t.at[n] in t.mem && Child(n, i) !in gone
      ensures InnerOk(t, n, i)
    {
      assert InnerOk(s, n, i);
    }
    forall r, v | 0 <= v < USERVPN ensures LeafOk(t, r, v) {
      assert LeafOk(s, r, v);
    }
  }

  lemma TakeInv(s: St, d: Page, gone: set<Node>)
    requires InvBut(s, gone) && s.free != []
    ensures InvBut(Take(s, d), gone) && s.free[0] in s.use && s.use[s.free[0]] == Free
    ensures forall r, v: nat :: Leaf(Take(s, d), r, v) == Leaf(s, r, v)
  {
    var p, t := s.free[0], Take(s, d);
    assert UseOk(s, p);
    forall n | n in s.at ensures s.at[n] != p {
      assert TableOk(s, n);
    }
    forall c | c in t.use && c != p ensures c in t.mem && c > 0 && c % PGSIZE == 0 && (t.use[c].Free? ==> c in t.free) {
      assert UseOk(s, c);
    }
    forall i | 0 <= i < |t.free| ensures NextOk(t, i) {
      assert NextOk(s, i + 1);
    }
    KeepsTreesInv(s, t, gone);
  }

  lemma GiveInv(s: St, p: nat, d: Page, gone: set<Node>)
    requires InvBut(s, gone) && p in s.use && s.use[p] == Held
    ensures InvBut(Give(s, p, d), gone)
    ensures forall r, v: nat :: Leaf(Give(s, p, d), r, v) == Leaf(s, r, v)
  {
    var t := Give(s, p, d);
    assert UseOk(s, p);
    forall n | n in s.at ensures s.at[n] != p {
      assert TableOk(s, n);
    }
    forall c | c in t.use && c != p ensures c in t.mem && c > 0 && c % PGSIZE == 0 && (t.use[c].Free? ==> c in t.free) {
      assert UseOk(s, c);
    }
    forall i | 0 <= i < |t.free| ensures NextOk(t, i) {
      if i > 0 { assert NextOk(s, i - 1); }
    }
    KeepsTreesInv(s, t, gone);
  }

  lemma FillInv(s: St, p: nat, d: Page, gone: set<Node>)
    requires InvBut(s, gone) && p in s.use && (s.use[p] == Held || s.use[p].User?)
    ensures InvBut(Fill(s, p, d), gone)
    ensures forall r, v: nat :: Leaf(Fill(s, p, d), r, v) == Leaf(s, r, v)
  {
    var t := Fill(s, p, d);
    assert UseOk(s, p);
    forall n | n in s.at ensures s.at[n] != p {
      assert TableOk(s, n);
    }
    forall c | c in t.use ensures c in t.mem && c > 0 && c % PGSIZE == 0 && (t.use[c].Free? ==> c in t.free) {
      assert UseOk(s, c);
    }
    forall i | 0 <= i < |t.free| ensures NextOk(t, i) {
      assert NextOk(s, i);
    }
    KeepsTreesInv(s, t, gone);
  }

  lemma ParentChild(n: Node, i: nat)
    requires n.lvl > 0 && i < 512
    ensures Parent(Child(n, i)) == n && Child(n, i).q % 512 == i
  {
  }

  lemma ChildParent(n: Node)
    ensures Child(Parent(n), n.q % 512) == n
  {
  }

  lemma ChildUp(s: St, n: Node, i: nat)
    requires InvBut(s, {}) && 0 < n.lvl <= 2 && i < 512
    ensures Child(n, i) in s.at ==> n in s.at
  {
    ParentChild(n, i);
    if Child(n, i) in s.at { assert TableOk(s, Child(n, i)); }
  }

  /** A new table is empty: no leaf changes. */
  lemma AddTableLeaf(s: St, n: Node, p: nat, r: nat, v: nat)
    requires InvBut(s, {}) && p in s.use && s.use[p] == Held && n !in s.at && n.lvl < 2
    requires Parent(n) in s.at && s.at[Parent(n)] in s.mem
    ensures Leaf(AddTable(s, n, p), r, v) == Leaf(s, r, v)
  {
    var m := Node(r, 0, v / 512);
    if m in s.at {
      assert TableOk(s, m) && TableOk(s, Parent(n));
    }
  }

  lemma AddTableInv(s: St, n: Node, p: nat)
    requires Inv(s) && p in s.use && s.use[p] == Held && n !in s.at && n.lvl < 2
    requires Parent(n) in s.at && (n.lvl == 0 ==> n.q < MAXVPN / 512)
    ensures s.at[Parent(n)] in s.mem && Inv(AddTable(s, n, p))
    ensures forall r, v: nat :: Leaf(AddTable(s, n, p), r, v) == Leaf(s, r, v)
  {
    var pp := s.at[Parent(n)];
    assert TableOk(s, Parent(n)) && UseOk(s, pp) && UseOk(s, p);
    var t := AddTable(s, n, p);
    forall r, v: nat ensures Leaf(t, r, v) == Leaf(s, r, v) {
      AddTableLeaf(s, n, p, r, v);
    }
    forall c | c in t.use ensures UseOk(t, c) {
      if c != p { assert UseOk(s, c); }
    }
    forall m | m in t.at ensures TableOk(t, m) {
      if m != n { assert TableOk(s, m); }
    }
    forall m, i | m in t.at && m.lvl > 0 && 0 <= i < 512 && t.at[m] in t.mem ensures InnerOk(t, m, i) {
      ParentChild(m, i);
      ChildParent(n);
      if m == n {
        ChildUp(s, n, i);
      } else {
        assert TableOk(s, m) && UseOk(s, s.at[m]) && InnerOk(s, m, i);
        if Child(m, i) == n { EntryIs(p, 0); }
      }
    }
    forall r, v | 0 <= v < USERVPN ensures LeafOk(t, r, v) {
      assert LeafOk(s, r, v);
    }
    forall i | 0 <= i < |t.free| ensures NextOk(t, i) {
      assert NextOk(s, i);
    }
  }

  /** uvmcreate(): page p, cleared, is the root of a new address space. */
  function AddRoot(s: St, p: nat): St {
    var n := Node(p, 2, 0);
    St(s.mem[p := Zeros()], s.free, s.use[p := Table(n)], s.at[n := p])
  }

  lemma AddRootInv(s: St, p: nat)
    requires Inv(s) && p in s.use && s.use[p] == Held
    ensures Node(p, 2, 0) !in s.at && Inv(AddRoot(s, p))
    ensures forall r, v: nat :: Leaf(AddRoot(s, p), r, v) == Leaf(s, r, v)
  {
    var n, t := Node(p, 2, 0), AddRoot(s, p);
    assert UseOk(s, p) && (n in s.at ==> TableOk(s, n));
    forall r, v: nat ensures Leaf(t, r, v) == Leaf(s, r, v) {
      if Node(r, 0, v / 512) in s.at { assert TableOk(s, Node(r, 0, v / 512)); }
    }
    forall c | c in t.use ensures UseOk(t, c) {
      if c != p { assert UseOk(s, c); }
    }
    forall m | m in t.at ensures TableOk(t, m) {
      if m != n { assert TableOk(s, m); }
    }
    forall m, i | m in t.at && m.lvl > 0 && 0 <= i < 512 && t.at[m] in t.mem ensures InnerOk(t, m, i) {
      if m == n {
        ChildUp(s, n, i);
      } else {
        assert TableOk(s, m) && UseOk(s, s.at[m]) && InnerOk(s, m, i);
      }
    }
    forall r, v | 0 <= v < USERVPN ensures LeafOk(t, r, v) {
      assert LeafOk(s, r, v);
    }
    forall i | 0 <= i < |t.free| ensures NextOk(t, i) {
      assert NextOk(s, i);
    }
  }

  /** One leaf entry changes, and no other of any address space. */
  lemma SetLeafIs(s: St, root: nat, v: nat, w: nat, pa: nat, u: Use, r: nat, x: nat)
    requires InvBut(s, {}) && Node(root, 0, v / 512) in s.at
    ensures s.at[Node(root, 0, v / 512)] in s.mem
    ensures Leaf(SetLeaf(s, root, v, w, pa, u), r, x) == if r == root && x == v then w else Leaf(s, r, x)
  {
    var n, m := Node(root, 0, v / 512), Node(r, 0, x / 512);
    assert TableOk(s, n) && UseOk(s, s.at[n]);
    if m in s.at { assert TableOk(s, m) && UseOk(s, s.at[m]); }
  }

  /** A page is unmapped: its own page is held again. */
  lemma UnmapInv(s: St, root: nat, v: nat)
    requires Inv(s) && V(Leaf(s, root, v))
    ensures Node(root, 0, v / 512) in s.at && s.at[Node(root, 0, v / 512)] in s.mem
    ensures var pa := PTE2PA(Leaf(s, root, v));
      && Inv(SetLeaf(s, root, v, 0, pa, Held))
      && (v < USERVPN ==> pa in s.use && s.use[pa] == User(root, v))
  {
    var pa := PTE2PA(Leaf(s, root, v));
    assert LeafOk(s, root, v) || v >= USERVPN;
    SetLeafInv(s, root, v, 0, pa, Held);
  }

  /** Leaf v becomes w, which gives page pa to it or takes it away. */
  ghost predicate Swaps(s: St, root: nat, v: nat, w: nat, pa: nat, u: Use) {
    && (v < USERVPN ==> pa in s.use)
    && (v < USERVPN && V(w) ==> s.use[pa] == Held && !V(Leaf(s, root, v)) && u == User(root, v) && PTE2PA(w) == pa)
    && (v < USERVPN && !V(w) ==> s.use[pa] == User(root, v) && u == Held)
  }

  lemma SetLeafUse(s: St, root: nat, v: nat, w: nat, pa: nat, u: Use, c: nat)
    requires Inv(s) && Node(root, 0, v / 512) in s.at && s.at[Node(root, 0, v / 512)] in s.mem &&
      Swaps(s, root, v, w, pa, u)
    requires c in s.use
    ensures UseOk(SetLeaf(s, root, v, w, pa, u), c)
  {
    assert UseOk(s, c) && (v < USERVPN ==> UseOk(s, pa));
    SetLeafIs(s, root, v, w, pa, u, root, v);
    if s.use[c].User? { SetLeafIs(s, root, v, w, pa, u, s.use[c].root, s.use[c].vpn); }
  }

  lemma SetLeafInv(s: St, root: nat, v: nat, w: nat, pa: nat, u: Use)
    requires Inv(s) && Node(root, 0, v / 512) in s.at && Swaps(s, root, v, w, pa, u)
    ensures s.at[Node(root, 0, v / 512)] in s.mem && Inv(SetLeaf(s, root, v, w, pa, u))
  {
    var n := Node(root, 0, v / 512);
    assert TableOk(s, n) && UseOk(s, s.at[n]);
    var t := SetLeaf(s, root, v, w, pa, u);
    forall c | c in t.use ensures UseOk(t, c) {
      SetLeafUse(s, root, v, w, pa, u, c);
    }
    forall m | m in t.at ensures TableOk(t, m) {
      assert TableOk(s, m);
    }
    forall m, i | m in t.at && m.lvl > 0 && 0 <= i < 512 && t.at[m] in t.mem ensures InnerOk(t, m, i) {
      assert TableOk(s, m) && UseOk(s, s.at[m]) && InnerOk(s, m, i);
    }
    forall r, x | 0 <= x < USERVPN ensures LeafOk(t, r, x) {
      assert LeafOk(s, r, x);
      SetLeafIs(s, root, v, w, pa, u, r, x);
    }
    forall i | 0 <= i < |t.free| ensures NextOk(t, i) {
      assert NextOk(s, i);
    }
  }

  // --- Taking a tree apart ---

  /** Table m is n or below it. */
  ghost predicate Under(m: Node, n: Node)
    decreases n.lvl - m.lvl
  {
    m == n || (m.lvl < n.lvl && Under(Parent(m), n))
  }

  lemma {:induction false} UnderChild(m: Node, n: Node, i: nat)
    requires n.lvl > 0 && i < 512 && Under(m, Child(n, i))
    ensures m.lvl < n.lvl && Under(m, n)
    decreases n.lvl - m.lvl
  {
    ParentChild(n, i);
    if m == Child(n, i) {
      assert Under(n, n);
    } else {
      UnderChild(Parent(m), n, i);
    }
  }

  /** What is below n is below one of its children, and that is one only. */
  lemma {:induction false} UnderOne(m: Node, n: Node) returns (i: nat)
    requires Under(m, n) && m != n
    ensures i < 512 && n.lvl > 0 && Under(m, Child(n, i))
    decreases n.lvl - m.lvl
  {
    if Parent(m) == n {
      i := m.q % 512;
      ChildParent(m);
    } else {
      i := UnderOne(Parent(m), n);
      UnderChild(Parent(m), n, i);
    }
  }

  ghost predicate NoLeaves(s: St, n: Node) {
    forall v: nat :: Under(Node(n.root, 0, v / 512), n) ==> !V(Leaf(s, n.root, v))
  }

  /** The table n, which is empty, is taken out; the entry for it is still there. */
  function Drop(s: St, n: Node): St
    requires n in s.at
  {
    s.(use := s.use[s.at[n] := Held], at := s.at - {n})
  }

  /** The entry for n is cleared. */
  function Unlink(s: St, n: Node): St
    requires Parent(n) in s.at && s.at[Parent(n)] in s.mem
  {
    var pp := s.at[Parent(n)];
    s.(mem := s.mem[pp := s.mem[pp][n.q % 512 := 0]])
  }

  /** Same valid leaves. */
  ghost predicate SameLeaves(s: St, t: St) {
    forall r, v: nat :: V(Leaf(s, r, v)) || V(Leaf(t, r, v)) ==> Leaf(t, r, v) == Leaf(s, r, v)
  }

  lemma DropInv(s: St, n: Node)
    requires Inv(s) && n in s.at
    requires forall m :: m in s.at ==> Parent(m) != n
    requires n.lvl == 0 ==> forall v: nat :: v / 512 == n.q ==> !V(Leaf(s, n.root, v))
    ensures InvBut(Drop(s, n), {n}) && SameLeaves(s, Drop(s, n))
  {
    var t := Drop(s, n);
    assert TableOk(s, n);
    forall r, v: nat ensures Leaf(t, r, v) == if Node(r, 0, v / 512) == n then 0 else Leaf(s, r, v) {
      if Node(r, 0, v / 512) in s.at { assert TableOk(s, Node(r, 0, v / 512)); }
    }
    forall c | c in t.use ensures UseOk(t, c) {
      assert UseOk(s, c);
    }
    forall m | m in t.at ensures TableOk(t, m) {
      assert TableOk(s, m);
    }
    forall m, i | m in t.at && m.lvl > 0 && 0 <= i < 512 && t.at[m] in t.mem && Child(m, i) !in {n}
      ensures InnerOk(t, m, i)
    {
      assert InnerOk(s, m, i);
    }
    forall r, v | 0 <= v < USERVPN ensures LeafOk(t, r, v) {
      assert LeafOk(s, r, v);
    }
    forall i | 0 <= i < |t.free| ensures NextOk(t, i) {
      assert NextOk(s, i);
    }
  }

  lemma UnlinkInv(s: St, n: Node)
    requires InvBut(s, {n}) && n !in s.at && n.lvl < 2 && Parent(n) in s.at
    ensures s.at[Parent(n)] in s.mem && Inv(Unlink(s, n))
    ensures forall r, v: nat :: Leaf(Unlink(s, n), r, v) == Leaf(s, r, v)
  {
    var pp := s.at[Parent(n)];
    assert TableOk(s, Parent(n)) && UseOk(s, pp);
    var t := Unlink(s, n);
    forall r, v: nat ensures Leaf(t, r, v) == Leaf(s, r, v) {
      if Node(r, 0, v / 512) in s.at { assert TableOk(s, Node(r, 0, v / 512)); }
    }
    forall c | c in t.use ensures UseOk(t, c) {
      assert UseOk(s, c);
    }
    forall m | m in t.at ensures TableOk(t, m) {
      assert TableOk(s, m);
    }
    forall m, i | m in t.at && m.lvl > 0 && 0 <= i < 512 && t.at[m] in t.mem ensures InnerOk(t, m, i) {
      ParentChild(m, i);
      assert TableOk(s, m) && UseOk(s, s.at[m]);
      if Child(m, i) != n { assert InnerOk(s, m, i); }
    }
    forall r, v | 0 <= v < USERVPN ensures LeafOk(t, r, v) {
      assert LeafOk(s, r, v);
    }
    forall i | 0 <= i < |t.free| ensures NextOk(t, i) {
      assert NextOk(s, i);
    }
  }

  /** There is no entry for a root. */
  lemma RootInv(s: St, n: Node)
    requires InvBut(s, {n}) && n.lvl == 2
    ensures Inv(s)
  {
    forall m, i | m in s.at && m.lvl > 0 && 0 <= i < 512 && s.at[m] in s.mem ensures InnerOk(s, m, i) {
      assert TableOk(s, m);
    }
  }

  // --- What a call may change ---

  /** Pages in use stay in use with their contents, and so do tables and valid leaves. */
  ghost predicate Adds(s: St, t: St) {
    && t.use.Keys == s.use.Keys
    && (forall p :: p in s.use && (s.use[p].User? || s.use[p].Held?) ==>
          t.use[p] == s.use[p] && (p in s.mem ==> p in t.mem && t.mem[p] == s.mem[p]))
    && (forall n :: n in s.at ==> n in t.at && t.at[n] == s.at[n])
    && (forall r, v: nat :: V(Leaf(s, r, v)) ==> Leaf(t, r, v) == Leaf(s, r, v))
  }

  /** Only free pages and tables differ. */
  ghost predicate Keeps(s: St, t: St) {
    && Adds(s, t)
    && (forall p :: p in s.use && (t.use[p].User? || t.use[p].Held?) ==> t.use[p] == s.use[p])
    && (forall r, v: nat :: V(Leaf(t, r, v)) ==> V(Leaf(s, r, v)))
  }

  lemma KeepsItself(s: St)
    requires Inv(s)
    ensures Keeps(s, s)
  {
    forall p | p in s.use ensures p in s.mem {
      assert UseOk(s, p);
    }
  }

  lemma KeepsTwice(s: St, t: St, u: St)
    requires Keeps(s, t) && Keeps(t, u)
    ensures Keeps(s, u)
  {
  }

  /** Taking a free page for a table. */
  lemma NewTable(s: St, d: Page, n: Node)
    requires Inv(s) && s.free != [] && n !in s.at && n.lvl < 2 && Parent(n) in s.at
    requires n.lvl == 0 ==> n.q < MAXVPN / 512
    ensures var t := Take(s, d);
      && Inv(t) && s.free[0] in t.use && t.use[s.free[0]] == Held && s.at[Parent(n)] in t.mem
      && Inv(AddTable(t, n, s.free[0])) && Keeps(s, AddTable(t, n, s.free[0]))
  {
    TakeInv(s, d, {});
    var t, p := Take(s, d), s.free[0];
    AddTableInv(t, n, p);
    var u, pp := AddTable(t, n, p), t.at[Parent(n)];
    assert TableOk(s, Parent(n));
    forall c | c in s.use && (s.use[c].User? || s.use[c].Held?)
      ensures u.use[c] == s.use[c] && c in s.mem && c in u.mem && u.mem[c] == s.mem[c]
    {
      assert UseOk(s, c);
    }
  }

  /** One level down: entry i of table n. */
  lemma WalkDown(s: St, n: Node, i: nat)
    requires Inv(s) && n in s.at && n.lvl > 0 && i < 512
    ensures s.at[n] in s.mem && Parent(Child(n, i)) == n && Child(n, i).q % 512 == i
    ensures var e := s.mem[s.at[n]][i];
      (V(e) <==> Child(n, i) in s.at) && (V(e) ==> PTE2PA(e) == s.at[Child(n, i)] && Inner(e))
  {
    ParentChild(n, i);
    assert TableOk(s, n) && UseOk(s, s.at[n]) && InnerOk(s, n, i);
    if Child(n, i) in s.at {
      assert TableOk(s, Child(n, i)) && UseOk(s, s.at[Child(n, i)]);
      EntryIs(s.at[Child(n, i)], 0);
    }
  }

  predicate InRange(r: nat, x: nat, root: nat, lo: nat, hi: nat) {
    r == root && lo <= x < hi
  }

  /**
    Pages lo to hi of an address space, which had none, may have got pages that were free or
    held; all else that was in use is as before.
   */
  ghost predicate Grows(s: St, t: St, root: nat, lo: nat, hi: nat) {
    && t.use.Keys == s.use.Keys
    && (forall n :: n in s.at ==> n in t.at && t.at[n] == s.at[n])
    && (forall p :: p in s.use && (s.use[p].User? || s.use[p].Held?) ==>
          t.use[p] == s.use[p] && (p in s.mem ==> p in t.mem && t.mem[p] == s.mem[p]))
    && (forall p :: p in s.use && t.use[p].Held? ==> s.use[p].Held?)
    && (forall p :: p in s.use && t.use[p].User? ==>
          t.use[p] == s.use[p] || InRange(t.use[p].root, t.use[p].vpn, root, lo, hi))
    && (forall r, v: nat :: !InRange(r, v, root, lo, hi) && (V(Leaf(s, r, v)) || V(Leaf(t, r, v))) ==>
          Leaf(t, r, v) == Leaf(s, r, v))
  }

  /** Pages lo to hi of an address space are unmapped, and their memory becomes u. */
  ghost predicate Shrinks(s: St, t: St, root: nat, lo: nat, hi: nat, u: Use) {
    && t.use.Keys == s.use.Keys && t.at == s.at
    && (forall p :: p in s.use && !(s.use[p].User? && InRange(s.use[p].root, s.use[p].vpn, root, lo, hi)) ==>
          t.use[p] == s.use[p])
    && (forall p :: p in s.use && s.use[p].User? && InRange(s.use[p].root, s.use[p].vpn, root, lo, hi) ==>
          t.use[p] == u)
    && (forall p :: p in s.use && (t.use[p].User? || t.use[p].Held?) ==>
          p in s.mem && p in t.mem && t.mem[p] == s.mem[p])
    && (forall r, v: nat :: !InRange(r, v, root, lo, hi) ==> Leaf(t, r, v) == Leaf(s, r, v))
    && (forall v: nat :: lo <= v < hi ==> !V(Leaf(t, root, v)))
  }

  /** An address space that grew and shrank again is as it was, except for empty tables. */
  lemma GrowsShrinks(s: St, t: St, u: St, root: nat, lo: nat, hi: nat)
    requires Grows(s, t, root, lo, hi) && Shrinks(t, u, root, lo, hi, Free)
    requires forall p :: p in s.use && s.use[p].User? ==> !InRange(s.use[p].root, s.use[p].vpn, root, lo, hi)
    requires forall v: nat :: lo <= v < hi ==> !V(Leaf(s, root, v))
    ensures Keeps(s, u)
  {
    forall r, v: nat | V(Leaf(s, r, v)) || V(Leaf(u, r, v)) ensures Leaf(u, r, v) == Leaf(s, r, v) {
      assert !InRange(r, v, root, lo, hi);
    }
  }

  /** Entry v of the address space gets page pa, between s and t. */
  ghost predicate MapsOne(s: St, t: St, root: nat, v: nat, w: nat, pa: nat) {
    && t.use.Keys == s.use.Keys
    && (forall n :: n in s.at ==> n in t.at && t.at[n] == s.at[n])
    && (forall p :: p in s.use && (s.use[p].User? || s.use[p].Held?) ==>
          (v >= USERVPN || p != pa ==> t.use[p] == s.use[p]) && (p in s.mem ==> p in t.mem && t.mem[p] == s.mem[p]))
    && (v < USERVPN ==> pa in s.use && t.use[pa] == User(root, v))
    && (forall p :: p in s.use && (t.use[p].User? || t.use[p].Held?) ==>
          t.use[p] == s.use[p] || (v < USERVPN && p == pa))
    && Leaf(t, root, v) == w
    && (forall r, x: nat :: !(r == root && x == v) && (V(Leaf(s, r, x)) || V(Leaf(t, r, x))) ==>
          Leaf(t, r, x) == Leaf(s, r, x))
  }

  lemma KeepsMaps(s: St, m: St, root: nat, v: nat, w: nat, pa: nat)
    requires Inv(s) && Keeps(s, m) && Inv(m) && Node(root, 0, v / 512) in m.at && !V(Leaf(s, root, v)) && V(w)
    requires v < USERVPN ==> pa in s.use && s.use[pa] == Held && PTE2PA(w) == pa
    ensures m.at[Node(root, 0, v / 512)] in m.mem
    ensures var t := SetLeaf(m, root, v, w, pa, User(root, v)); Inv(t) && MapsOne(s, t, root, v, w, pa)
  {
    var n := Node(root, 0, v / 512);
    assert TableOk(m, n) && UseOk(m, m.at[n]);
    SetLeafInv(m, root, v, w, pa, User(root, v));
    var t := SetLeaf(m, root, v, w, pa, User(root, v));
    forall r, x: nat ensures Leaf(t, r, x) == if r == root && x == v then w else Leaf(m, r, x) {
      SetLeafIs(m, root, v, w, pa, User(root, v), r, x);
    }
  }

  lemma ShrinksOne(s: St, root: nat, v: nat)
    requires Inv(s) && V(Leaf(s, root, v))
    ensures Node(root, 0, v / 512) in s.at && s.at[Node(root, 0, v / 512)] in s.mem
    ensures var pa := PTE2PA(Leaf(s, root, v));
      var t := SetLeaf(s, root, v, 0, pa, Held);
      && Inv(t) && Shrinks(s, t, root, v, v + 1, Held)
      && (v < USERVPN ==> pa in s.use && s.use[pa] == User(root, v) && t.use[pa] == Held)
  {
    var pa := PTE2PA(Leaf(s, root, v));
    UnmapInv(s, root, v);
    var t := SetLeaf(s, root, v, 0, pa, Held);
    var n := Node(root, 0, v / 512);
    assert TableOk(s, n);
    forall r, x: nat ensures Leaf(t, r, x) == if r == root && x == v then 0 else Leaf(s, r, x) {
      SetLeafIs(s, root, v, 0, pa, Held, r, x);
    }
    forall p | p in s.use
      ensures p in s.mem && p in t.mem
      ensures s.use[p].User? && InRange(s.use[p].root, s.use[p].vpn, root, v, v + 1) ==> p == pa && v < USERVPN
    {
      assert UseOk(s, p);
    }
  }

  lemma ShrinksMore(s: St, t: St, u: St, root: nat, lo: nat, hi: nat, x: Use)
    requires lo <= hi && (x == Free || x == Held)
    requires Shrinks(s, t, root, lo, hi, x) && Shrinks(t, u, root, hi, hi + 1, x)
    ensures Shrinks(s, u, root, lo, hi + 1, x)
  {
    forall v: nat | lo <= v < hi + 1 ensures !V(Leaf(u, root, v)) {
      assert v < hi ==> !InRange(root, v, root, hi, hi + 1);
    }
  }

  /** Nothing to unmap. */
  lemma ShrinksNone(s: St, root: nat, v: nat, x: Use)
    requires Inv(s) && !V(Leaf(s, root, v))
    ensures Shrinks(s, s, root, v, v + 1, x)
  {
    forall p | p in s.use
      ensures p in s.mem && !(s.use[p].User? && InRange(s.use[p].root, s.use[p].vpn, root, v, v + 1))
    {
      assert UseOk(s, p);
    }
  }

  /** uvmunmap() frees the page first and clears its entry then, which comes to the same. */
  lemma FreeThenClear(s: St, root: nat, v: nat, pa: nat, d: Page)
    requires Inv(s) && Node(root, 0, v / 512) in s.at && v < USERVPN && pa in s.use && s.use[pa] == User(root, v)
    ensures var n := Node(root, 0, v / 512); s.at[n] in s.mem && s.at[n] in Give(s, pa, d).mem
    ensures SetLeaf(Give(s, pa, d), root, v, 0, pa, Free) == Give(SetLeaf(s, root, v, 0, pa, Held), pa, d)
  {
    var n := Node(root, 0, v / 512);
    assert TableOk(s, n) && UseOk(s, s.at[n]);
    var a, b := SetLeaf(Give(s, pa, d), root, v, 0, pa, Free), Give(SetLeaf(s, root, v, 0, pa, Held), pa, d);
    assert a.mem == b.mem && a.use == b.use;
  }

  /** The page that was unmapped goes to the free list. */
  lemma ShrinksFree(s: St, t: St, root: nat, v: nat, pa: nat, d: Page)
    requires Inv(t) && Shrinks(s, t, root, v, v + 1, Held) && pa in s.use && s.use[pa] == User(root, v)
    requires forall p :: p in s.use && s.use[p] == User(root, v) ==> p == pa
    ensures Inv(Give(t, pa, d)) && Shrinks(s, Give(t, pa, d), root, v, v + 1, Free)
  {
    GiveInv(t, pa, d, {});
    var u := Give(t, pa, d);
    forall p | p in s.use && (u.use[p].User? || u.use[p].Held?) ensures p != pa {
    }
  }

  /** Pages from lo on are mapped to the pages ps. */
  ghost predicate Maps(s: St, t: St, root: nat, lo: nat, ps: seq<nat>) {
    && t.use.Keys == s.use.Keys
    && (forall n :: n in s.at ==> n in t.at && t.at[n] == s.at[n])
    && (forall p :: p in s.use && (s.use[p].User? || s.use[p].Held?) ==>
          (t.use[p] == s.use[p] || (p in ps && t.use[p].User?)) && (p in s.mem ==> p in t.mem && t.mem[p] == s.mem[p]))
    && (forall p :: p in s.use && t.use[p].Held? ==> s.use[p].Held?)
    && (forall p :: p in s.use && t.use[p].User? ==>
          t.use[p] == s.use[p] || (p in ps && InRange(t.use[p].root, t.use[p].vpn, root, lo, lo + |ps|)))
    && (forall x: nat :: lo <= x < lo + |ps| ==> V(Leaf(t, root, x)))
    && (forall r, x: nat :: !InRange(r, x, root, lo, lo + |ps|) && (V(Leaf(s, r, x)) || V(Leaf(t, r, x))) ==>
          Leaf(t, r, x) == Leaf(s, r, x))
  }

  lemma MapsMore(s: St, t: St, u: St, root: nat, lo: nat, ps: seq<nat>, w: nat, p: nat)
    requires Maps(s, t, root, lo, ps) && MapsOne(t, u, root, lo + |ps|, w, p) && V(w)
    requires lo + |ps| < USERVPN ==> p in s.use && s.use[p].Held?
    ensures Maps(s, u, root, lo, ps + [p])
    ensures forall x: nat :: lo <= x < lo + |ps| ==> Leaf(u, root, x) == Leaf(t, root, x)
  {
    forall r, x: nat | !InRange(r, x, root, lo, lo + |ps| + 1) && (V(Leaf(s, r, x)) || V(Leaf(u, r, x)))
      ensures Leaf(u, r, x) == Leaf(s, r, x)
    {
      assert !InRange(r, x, root, lo, lo + |ps|);
    }
  }

  lemma KeepsMapped(s: St, t: St, u: St, root: nat, lo: nat, ps: seq<nat>)
    requires Maps(s, t, root, lo, ps) && Keeps(t, u)
    ensures Maps(s, u, root, lo, ps)
    ensures forall x: nat :: lo <= x < lo + |ps| ==> Leaf(u, root, x) == Leaf(t, root, x)
  {
  }

  /** Page p may become page x of a process. */
  ghost predicate Spare(s: St, x: nat, p: nat) {
    x < USERVPN ==> p in s.use && s.use[p] == Held
  }

  /** mappages() panics at page x: it is beyond all addresses, or mapped. */
  ghost predicate Refused(s: St, root: nat, x: nat) {
    x >= MAXVPN || V(Leaf(s, root, x))
  }

  lemma StillSpare(s: St, t: St, root: nat, lo: nat, x: nat, ps: seq<nat>, p: nat)
    requires x == lo + |ps| && Spare(s, x, p) && Maps(s, t, root, lo, ps) && p !in ps
    ensures Spare(t, x, p) && (Refused(t, root, x) <==> Refused(s, root, x))
  {
    assert !InRange(root, lo + |ps|, root, lo, lo + |ps|);
  }

  lemma GrowsMore(s: St, t: St, u: St, root: nat, lo: nat, hi: nat)
    requires lo <= hi && Grows(s, t, root, lo, hi) && Grows(t, u, root, hi, hi + 1)
    ensures Grows(s, u, root, lo, hi + 1)
  {
    forall r, v: nat | !InRange(r, v, root, lo, hi + 1) && (V(Leaf(s, r, v)) || V(Leaf(u, r, v)))
      ensures Leaf(u, r, v) == Leaf(s, r, v)
    {
      assert !InRange(r, v, root, lo, hi) && !InRange(r, v, root, hi, hi + 1);
    }
  }

  /** Page v of the address space has contents d and these permissions. */
  ghost predicate Has(s: St, root: nat, v: nat, d: Page, perm: nat) {
    var e := Leaf(s, root, v);
    && V(e) && Flags(e) == (if perm % 2 == 1 then perm else perm + 1)
    && PTE2PA(e) in s.use && s.use[PTE2PA(e)] == User(root, v)
    && PTE2PA(e) in s.mem && s.mem[PTE2PA(e)] == d
  }

  /** A page stays as it is while others are added. */
  lemma GrowsHas(s: St, t: St, root: nat, lo: nat, hi: nat, v: nat, d: Page, perm: nat)
    requires Has(s, root, v, d, perm) && Grows(s, t, root, lo, hi) && !(lo <= v < hi)
    ensures Has(t, root, v, d, perm)
  {
    assert !InRange(root, v, root, lo, hi);
  }

  /** Page p was free in s; in m it is held and holds d. */
  ghost predicate Took(s: St, m: St, p: nat, d: Page) {
    && p in s.use && s.use[p] == Free && p % PGSIZE == 0
    && m.use == s.use[p := Held] && m.mem == s.mem[p := d] && m.at == s.at
    && forall r, v: nat :: Leaf(m, r, v) == Leaf(s, r, v)
  }

  lemma TookIs(s: St, j: Page, d: Page)
    requires Inv(s) && s.free != []
    ensures var m := Fill(Take(s, j), s.free[0], d); Inv(m) && Took(s, m, s.free[0], d)
  {
    TakeInv(s, j, {});
    assert UseOk(s, s.free[0]);
    FillInv(Take(s, j), s.free[0], d, {});
  }

  /** A page from the list, filled and then mapped. */
  lemma NewPageGrows(s: St, m: St, t: St, root: nat, v: nat, p: nat, d: Page, perm: nat)
    requires perm < 1024 && Took(s, m, p, d) && Maps(m, t, root, v, [p]) && LeafOk(t, root, v)
    requires !V(Leaf(s, root, v)) && Leaf(t, root, v) == Entry(p, perm)
    ensures Grows(s, t, root, v, v + 1) && Has(t, root, v, d, perm)
  {
    EntryIs(p, perm);
    forall c | c in s.use && (s.use[c].User? || s.use[c].Held?)
      ensures t.use[c] == s.use[c] && (c in s.mem ==> c in t.mem && t.mem[c] == s.mem[c])
    {
      assert m.use[c] == s.use[c] && m.use[p] == Held;
    }
  }

  /** A page from the list that could not be mapped goes back. */
  lemma NewPageFails(s: St, m: St, t: St, p: nat, d: Page, e: Page)
    requires Took(s, m, p, d) && Keeps(m, t) && forall r, v: nat :: Leaf(Give(t, p, e), r, v) == Leaf(t, r, v)
    ensures Keeps(s, Give(t, p, e))
  {
    var u := Give(t, p, e);
    forall c | c in s.use && (s.use[c].User? || s.use[c].Held?)
      ensures u.use[c] == s.use[c] && (c in s.mem ==> c in u.mem && u.mem[c] == s.mem[c])
    {
      assert m.use[c] == s.use[c];
    }
  }

  /** The k-th page from pa on. */
  function Nth(pa: nat, k: nat): nat {
    pa + k * PGSIZE
  }

  /** The pages from pa on that have been mapped are ps, with these permissions. */
  ghost predicate MappedAs(t: St, root: nat, lo: nat, ps: seq<nat>, pa: nat, perm: nat)
    requires perm < 1024
  {
    && (forall k :: 0 <= k < |ps| ==> ps[k] == Nth(pa, k))
    && (forall x: nat :: lo <= x < lo + |ps| ==> Leaf(t, root, x) == Entry(Nth(pa, x - lo), perm))
  }

  lemma MappedMore(t: St, u: St, root: nat, lo: nat, ps: seq<nat>, pa: nat, perm: nat, q: nat)
    requires perm < 1024 && MappedAs(t, root, lo, ps, pa, perm) && q == Nth(pa, |ps|)
    requires forall x: nat :: lo <= x < lo + |ps| ==> Leaf(u, root, x) == Leaf(t, root, x)
    ensures MappedAs(u, root, lo, ps, pa, perm)
    ensures Leaf(u, root, lo + |ps|) == Entry(q, perm) ==> MappedAs(u, root, lo, ps + [q], pa, perm)
  {
  }

  lemma NthNew(t: St, root: nat, lo: nat, ps: seq<nat>, pa: nat, perm: nat)
    requires perm < 1024 && MappedAs(t, root, lo, ps, pa, perm)
    ensures Nth(pa, |ps|) !in ps
  {
  }

  lemma EntryOf(pa: nat, perm: nat)
    requires perm < 1024
    ensures V(Entry(pa, perm)) && (pa % PGSIZE == 0 ==> PTE2PA(Entry(pa, perm)) == pa)
  {
    EntryParts(pa / 4096, if perm % 2 == 1 then perm else perm + 1);
  }

  lemma PlaceUp(s: St, root: nat, v: nat)
    requires Inv(s) && v < MAXVPN
    ensures Place(root, 0, v) in s.at ==> Place(root, 1, v) in s.at
  {
    PlaceChild(root, 1, v);
    ChildUp(s, Place(root, 1, v), PX(1, v));
  }

  lemma LeafAt(s: St, root: nat, v: nat)
    requires Inv(s) && Node(root, 0, v / 512) in s.at
    ensures var t := s.at[Node(root, 0, v / 512)]; t in s.mem && s.mem[t][v % 512] == Leaf(s, root, v)
  {
    assert TableOk(s, Node(root, 0, v / 512)) && UseOk(s, s.at[Node(root, 0, v / 512)]);
  }

  lemma OneUser(s: St, root: nat, v: nat)
    requires Inv(s)
    ensures forall p :: p in s.use && s.use[p] == User(root, v) ==> p == PTE2PA(Leaf(s, root, v))
  {
    forall p | p in s.use && s.use[p] == User(root, v) ensures p == PTE2PA(Leaf(s, root, v)) {
      assert UseOk(s, p);
    }
  }

  lemma ShrinksZero(s: St, root: nat, v: nat, u: Use)
    requires Inv(s)
    ensures Shrinks(s, s, root, v, v, u)
  {
    forall p | p in s.use ensures p in s.mem {
      assert UseOk(s, p);
    }
  }

  lemma NoneMapped(s: St, t: St, root: nat, v: nat, ps: seq<nat>)
    requires Maps(s, t, root, v, ps) && |ps| == 0
    ensures Keeps(s, t)
  {
    assert forall r, x: nat :: !InRange(r, x, root, v, v);
  }

  lemma GrowsKeeps(s: St, t: St, u: St, root: nat, lo: nat, hi: nat)
    requires Grows(s, t, root, lo, hi) && Keeps(t, u)
    ensures Grows(s, u, root, lo, hi)
  {
  }

  lemma GrowsZero(s: St, root: nat, lo: nat)
    ensures Grows(s, s, root, lo, lo)
  {
  }

  /** A call that fails gives back every page that it took for memory. */
  lemma GrowFails(s: St, t: St, u: St, root: nat, lo: nat, hi: nat)
    requires Inv(s) && Grows(s, t, root, lo, hi) && Shrinks(t, u, root, lo, hi, Free)
    requires forall x: nat :: lo <= x < hi ==> !V(Leaf(s, root, x))
    ensures Keeps(s, u)
  {
    forall p | p in s.use && s.use[p].User? ensures !InRange(s.use[p].root, s.use[p].vpn, root, lo, hi) {
      assert UseOk(s, p);
    }
    GrowsShrinks(s, t, u, root, lo, hi);
  }

  lemma GrowsOver(s: St, t: St, root: nat, lo: nat, hi: nat)
    requires Grows(s, t, root, lo, hi)
    ensures Grows(s, t, root, lo, hi + 1)
  {
    forall r, v: nat | !InRange(r, v, root, lo, hi + 1) ensures !InRange(r, v, root, lo, hi) {
    }
  }

  /** Page x of address space b is a copy of that of a: same contents and flags, on a page of its own. */
  ghost predicate Copied(s: St, t: St, a: nat, b: nat, x: nat) {
    var e := Leaf(s, a, x);
    if V(e) then PTE2PA(e) in s.mem && Has(t, b, x, s.mem[PTE2PA(e)], Flags(e)) else !V(Leaf(t, b, x))
  }

  lemma GrowsCopied(s: St, t: St, u: St, a: nat, b: nat, x: nat, hi: nat)
    requires Copied(s, t, a, b, x) && x < hi && Grows(t, u, b, hi, hi + 1)
    ensures Copied(s, u, a, b, x)
  {
    var e := Leaf(s, a, x);
    assert !InRange(b, x, b, hi, hi + 1);
    if V(e) { GrowsHas(t, u, b, hi, hi + 1, x, s.mem[PTE2PA(e)], Flags(e)); }
  }

  // --- What freewalk() takes away ---

  ghost predicate Below(m: Node, n: Node, i: nat) {
    n.lvl > 0 && exists j :: 0 <= j < i && Under(m, Child(n, j))
  }

  /** The tables below the first i entries of table n are gone, and their pages free. */
  ghost predicate SweptTo(s: St, t: St, n: Node, i: nat)
    requires n in s.at
  {
    && t.use.Keys == s.use.Keys
    && (forall m {:trigger m in t.at} {:trigger m in s.at} :: m in t.at <==> m in s.at && !Below(m, n, i))
    && (forall m :: m in t.at ==> t.at[m] == s.at[m])
    && (forall p :: p in s.use ==> t.use[p] == if s.use[p].Table? && Below(s.use[p].node, n, i) then Free else s.use[p])
    && (forall p :: p in s.use && !t.use[p].Free? && p != s.at[n] && p in s.mem ==> p in t.mem && t.mem[p] == s.mem[p])
    && SameLeaves(s, t)
  }

  /** Table n and all below it are gone. */
  ghost predicate Swept(s: St, t: St, n: Node) {
    && t.use.Keys == s.use.Keys
    && (forall m {:trigger m in t.at} {:trigger m in s.at} :: m in t.at <==> m in s.at && !Under(m, n))
    && (forall m :: m in t.at ==> t.at[m] == s.at[m])
    && (forall p :: p in s.use ==> t.use[p] == if s.use[p].Table? && Under(s.use[p].node, n) then Free else s.use[p])
    && (forall p :: p in s.use && !t.use[p].Free? && p in s.mem ==> p in t.mem && t.mem[p] == s.mem[p])
    && SameLeaves(s, t)
  }

  lemma BelowNext(m: Node, n: Node, i: nat)
    requires n.lvl > 0
    ensures Below(m, n, i + 1) <==> Below(m, n, i) || Under(m, Child(n, i))
  {
    if Below(m, n, i) {
      var j :| 0 <= j < i && Under(m, Child(n, j));
      assert 0 <= j < i + 1 && Under(m, Child(n, j));
    }
  }

  lemma BelowAll(m: Node, n: Node)
    ensures Under(m, n) <==> m == n || Below(m, n, 512)
  {
    if Below(m, n, 512) {
      var j :| 0 <= j < 512 && Under(m, Child(n, j));
      UnderChild(m, n, j);
    }
    if Under(m, n) && m != n {
      var j := UnderOne(m, n);
    }
  }

  /** Tables hang together: what is below a table that is not there is not there. */
  lemma {:induction false} UnderIn(s: St, m: Node, n: Node)
    requires Inv(s) && m in s.at && Under(m, n) && n.lvl <= 2
    ensures n in s.at
    decreases n.lvl - m.lvl
  {
    if m != n {
      assert TableOk(s, m);
      UnderIn(s, Parent(m), n);
    }
  }

  lemma SweptSkip(s: St, t: St, n: Node, i: nat)
    requires Inv(t) && n in s.at && 0 < n.lvl <= 2 && SweptTo(s, t, n, i) && Child(n, i) !in t.at
    ensures SweptTo(s, t, n, i + 1)
  {
    forall m ensures Below(m, n, i + 1) && m in t.at ==> false {
      BelowNext(m, n, i);
      if m in t.at && Under(m, Child(n, i)) { UnderIn(t, m, Child(n, i)); }
    }
    forall p | p in s.use && s.use[p].Table? && !t.use[p].Free? ensures !Below(s.use[p].node, n, i + 1) {
      assert UseOk(t, p);
      BelowNext(s.use[p].node, n, i);
    }
    forall m | Below(m, n, i) ensures Below(m, n, i + 1) { BelowNext(m, n, i); }
  }

  lemma SweptStep(s: St, t: St, u: St, n: Node, i: nat)
    requires n in s.at && 0 < n.lvl && i < 512 && SweptTo(s, t, n, i) && Swept(t, u, Child(n, i))
    requires n in u.at && u.at[n] in u.mem
    requires forall r, v: nat :: Leaf(Unlink(u, Child(n, i)), r, v) == Leaf(u, r, v)
    ensures Parent(Child(n, i)) == n && SweptTo(s, Unlink(u, Child(n, i)), n, i + 1)
  {
    ParentChild(n, i);
    forall m ensures Below(m, n, i + 1) <==> Below(m, n, i) || Under(m, Child(n, i)) {
      BelowNext(m, n, i);
    }
  }

  /** Last, the table itself: all its entries are empty. */
  lemma SweptLast(s: St, t: St, n: Node, d: Page)
    requires Inv(s) && Inv(t) && n in s.at && n in t.at && SweptTo(s, t, n, 512) && NoLeaves(s, n)
    ensures InvBut(Drop(t, n), {n}) && t.at[n] in Drop(t, n).use && Drop(t, n).use[t.at[n]] == Held
    ensures InvBut(Give(Drop(t, n), t.at[n], d), {n}) && Swept(s, Give(Drop(t, n), t.at[n], d), n)
  {
    assert TableOk(t, n) && TableOk(s, n);
    forall m | m in t.at ensures Parent(m) != n {
      ChildParent(m);
      assert Parent(m) == n ==> Under(m, Child(n, m.q % 512));
    }
    forall v: nat | n.lvl == 0 && v / 512 == n.q ensures !V(Leaf(t, n.root, v)) {
      assert Under(Node(n.root, 0, v / 512), n);
      assert !V(Leaf(s, n.root, v));
    }
    DropInv(t, n);
    GiveInv(Drop(t, n), t.at[n], d, {n});
    SweptLastUse(s, t, n, d);
  }

  lemma SweptLastUse(s: St, t: St, n: Node, d: Page)
    requires Inv(s) && n in s.at && n in t.at && SweptTo(s, t, n, 512) && SameLeaves(t, Drop(t, n))
    requires s.at[n] in s.use && s.use[s.at[n]] == Table(n)
    requires forall r, v: nat :: Leaf(Give(Drop(t, n), t.at[n], d), r, v) == Leaf(Drop(t, n), r, v)
    ensures Swept(s, Give(Drop(t, n), t.at[n], d), n)
  {
    var u := Give(Drop(t, n), t.at[n], d);
    forall m ensures Under(m, n) <==> m == n || Below(m, n, 512) {
      BelowAll(m, n);
    }
    forall p | p in s.use && s.use[p].Table? && s.use[p].node == n ensures p == s.at[n] {
      assert UseOk(s, p);
    }
  }

  lemma NoLeavesDown(s: St, t: St, n: Node, i: nat)
    requires n in s.at && 0 < n.lvl && i < 512 && NoLeaves(s, n) && SweptTo(s, t, n, i)
    ensures NoLeaves(t, Child(n, i))
  {
    forall v: nat | Under(Node(n.root, 0, v / 512), Child(n, i)) ensures !V(Leaf(t, n.root, v)) {
      UnderChild(Node(n.root, 0, v / 512), n, i);
      assert !V(Leaf(s, n.root, v));
    }
  }

  lemma NotUnder(n: Node, i: nat)
    requires 0 < n.lvl
    ensures !Under(n, Child(n, i))
  {
  }

  /** Entry i of a table: an inner one leads to a child, one of the lowest level is empty. */
  lemma LeafEntry(s: St, t: St, n: Node, i: nat)
    requires Inv(t) && n in s.at && n in t.at && i < 512 && SweptTo(s, t, n, i) && NoLeaves(s, n)
    ensures t.at[n] in t.mem
    ensures var e := t.mem[t.at[n]][i];
      if n.lvl == 0 then !V(e)
      else 0 < n.lvl <= 2 && (V(e) <==> Child(n, i) in t.at) && (V(e) ==> Inner(e) && PTE2PA(e) == t.at[Child(n, i)])
  {
    assert TableOk(t, n) && UseOk(t, t.at[n]);
    if n.lvl == 0 {
      var v := n.q * 512 + i;
      assert v / 512 == n.q && v % 512 == i && Under(Node(n.root, 0, v / 512), n);
      assert !V(Leaf(s, n.root, v));
      assert Leaf(t, n.root, v) == t.mem[t.at[n]][i];
    } else {
      WalkDown(t, n, i);
    }
  }

  lemma SweptLeaf(s: St, t: St, n: Node, i: nat)
    requires n in s.at && n.lvl == 0 && SweptTo(s, t, n, i)
    ensures SweptTo(s, t, n, i + 1)
  {
  }

  /** Pages lo to hi of an address space are cleared and have these permissions. */
  ghost predicate Cleared(t: St, root: nat, lo: nat, hi: nat, perm: nat) {
    forall x: nat :: lo <= x < hi ==> Has(t, root, x, Zeros(), perm)
  }

  lemma ClearedMore(s: St, t: St, u: St, root: nat, lo: nat, hi: nat, perm: nat)
    requires lo <= hi && Grows(s, t, root, lo, hi) && Grows(t, u, root, hi, hi + 1)
    requires Cleared(t, root, lo, hi, perm) && Has(u, root, hi, Zeros(), perm)
    ensures Grows(s, u, root, lo, hi + 1) && Cleared(u, root, lo, hi + 1, perm)
  {
    GrowsMore(s, t, u, root, lo, hi);
    forall x: nat | lo <= x < hi ensures Has(u, root, x, Zeros(), perm) {
      GrowsHas(t, u, root, hi, hi + 1, x, Zeros(), perm);
    }
  }

  /** Pages below hi are copied. */
  ghost predicate CopiedTo(s: St, t: St, a: nat, b: nat, hi: nat) {
    forall x: nat :: x < hi ==> Copied(s, t, a, b, x)
  }

  lemma CopiedMore(s: St, t: St, u: St, a: nat, b: nat, hi: nat)
    requires Grows(s, t, b, 0, hi) && CopiedTo(s, t, a, b, hi)
    requires Grows(t, u, b, hi, hi + 1) && Copied(s, u, a, b, hi)
    ensures Grows(s, u, b, 0, hi + 1) && CopiedTo(s, u, a, b, hi + 1)
  {
    GrowsMore(s, t, u, b, 0, hi);
    forall x: nat | x < hi ensures Copied(s, u, a, b, x) {
      GrowsCopied(s, t, u, a, b, x, hi);
    }
  }

  /** The parent's page x is as it was, and not yet in the child. */
  lemma ParentPage(s: St, t: St, a: nat, b: nat, x: nat)
    requires Inv(s) && Grows(s, t, b, 0, x) && a != b && x < USERVPN
    ensures !InRange(a, x, b, 0, x) && !InRange(b, x, b, 0, x)
    ensures V(Leaf(t, a, x)) <==> V(Leaf(s, a, x))
    ensures V(Leaf(s, a, x)) ==> Leaf(t, a, x) == Leaf(s, a, x)
    ensures V(Leaf(s, a, x)) ==> var p := PTE2PA(Leaf(s, a, x)); p in s.mem && p in t.mem && t.mem[p] == s.mem[p]
  {
    assert !InRange(a, x, b, 0, x);
    if V(Leaf(s, a, x)) {
      assert LeafOk(s, a, x) && UseOk(s, PTE2PA(Leaf(s, a, x)));
    }
  }

  // --- The end of an address space ---

  predicate Of(u: Use, root: nat) {
    (u.Table? && u.node.root == root) || (u.User? && u.root == root)
  }

  /** Exactly the tables and the memory of the address space are free now. */
  ghost predicate Dissolved(s: St, t: St, root: nat) {
    && t.use.Keys == s.use.Keys
    && (forall p :: p in s.use ==> t.use[p] == if Of(s.use[p], root) then Free else s.use[p])
    && (forall p :: p in s.use && (t.use[p].User? || t.use[p].Held?) && p in s.mem ==>
          p in t.mem && t.mem[p] == s.mem[p])
    && (forall r, v: nat :: r != root && (V(Leaf(s, r, v)) || V(Leaf(t, r, v))) ==> Leaf(t, r, v) == Leaf(s, r, v))
  }

  lemma {:induction false} UnderRoot(s: St, m: Node)
    requires Inv(s) && m in s.at
    ensures m.lvl <= 2 && Under(m, Node(m.root, 2, 0))
    decreases 2 - m.lvl
  {
    assert TableOk(s, m);
    if m.lvl < 2 { UnderRoot(s, Parent(m)); }
  }

  lemma {:induction false} UnderSame(m: Node, n: Node)
    requires Under(m, n)
    ensures m.root == n.root
    decreases n.lvl - m.lvl
  {
    if m != n { UnderSame(Parent(m), n); }
  }

  /** All valid leaves of the address space are below page hi. */
  ghost predicate Bounded(s: St, root: nat, hi: nat) {
    forall v: nat :: V(Leaf(s, root, v)) ==> v < hi
  }

  lemma ShrinksAll(s: St, t: St, root: nat, hi: nat)
    requires Shrinks(s, t, root, 0, hi, Free) && Bounded(s, root, hi)
    ensures NoLeaves(t, Node(root, 2, 0))
  {
    forall v: nat ensures !V(Leaf(t, root, v)) {
      assert v >= hi ==> !InRange(root, v, root, 0, hi);
    }
  }

  lemma DissolvedIs(s: St, t: St, u: St, root: nat, hi: nat)
    requires Inv(s) && Inv(t) && Bounded(s, root, hi)
    requires Shrinks(s, t, root, 0, hi, Free) && Swept(t, u, Node(root, 2, 0))
    ensures Dissolved(s, u, root)
  {
    var n := Node(root, 2, 0);
    forall p | p in s.use ensures u.use[p] == if Of(s.use[p], root) then Free else s.use[p] {
      assert UseOk(s, p) && UseOk(t, p);
      if t.use[p].Table? {
        if Under(t.use[p].node, n) { UnderSame(t.use[p].node, n); }
        UnderRoot(t, t.use[p].node);
      }
    }
    forall r, v: nat | r != root ensures !InRange(r, v, root, 0, hi) {
    }
  }

  // --- How many pages it takes ---

  /** The tables between the root and page v. */
  function Path(root: nat, v: nat): set<Node> {
    {Place(root, 1, v), Place(root, 0, v)}
  }

  /** The tables for the pages from lo to hi. */
  ghost function Paths(root: nat, lo: nat, hi: nat): set<Node> {
    if hi <= lo then {} else Paths(root, lo, hi - 1) + Path(root, hi - 1)
  }

  lemma {:induction false} PathsGrow(root: nat, lo: nat, k: nat, hi: nat)
    requires lo <= k <= hi
    ensures Paths(root, lo, k) <= Paths(root, lo, hi)
  {
    if k < hi { PathsGrow(root, lo, k, hi - 1); }
  }

  lemma MorePaths(root: nat, lo: nat, k: nat, m: nat)
    requires lo <= k && m == k + 1
    ensures Paths(root, lo, m) == Paths(root, lo, k) + Path(root, k)
  {
  }

  lemma OnePath(root: nat, v: nat)
    ensures Paths(root, v, v + 1) == Path(root, v)
  {
    MorePaths(root, v, v, v + 1);
  }

  /** From s to t these tables came, those that were not there, and so many pages were taken. */
  ghost predicate Spent(s: St, t: St, tables: set<Node>, pages: nat) {
    t.at.Keys == s.at.Keys + tables && |t.free| + |t.at| + pages == |s.free| + |s.at|
  }

  /** Free pages do not suffice for these tables, those that are not there, and for so many pages. */
  ghost predicate Lacks(s: St, tables: set<Node>, pages: nat) {
    |s.free| + |s.at| < pages + |s.at.Keys + tables|
  }

  lemma SpentMore(s: St, t: St, u: St, a: set<Node>, i: nat, b: set<Node>, j: nat, c: set<Node>, n: nat)
    requires Spent(s, t, a, i) && Spent(t, u, b, j) && c == a + b && n == i + j
    ensures Spent(s, u, c, n)
  {
  }

  /** What was spent was there, and suffices. */
  lemma SpentIs(s: St, t: St, a: set<Node>, i: nat)
    requires Spent(s, t, a, i)
    ensures !Lacks(s, a, i)
  {
    assert |t.at| == |t.at.Keys|;
  }

  /** When memory runs out for b after a, it does not suffice for both. */
  lemma SpentOut(s: St, t: St, a: set<Node>, i: nat, b: set<Node>, j: nat, c: set<Node>, n: nat)
    requires Spent(s, t, a, i) && Lacks(t, b, j) && c == a + b && n == i + j
    ensures Lacks(s, c, n)
  {
    assert t.at.Keys + b == s.at.Keys + c;
  }

  /** A page is taken, and then the tables for it. */
  lemma SpentPage(s: St, m: St, u: St, tables: set<Node>)
    requires Spent(s, m, {}, 1) && Spent(m, u, tables, 0)
    ensures Spent(s, u, tables, 1)
  {
    SpentMore(s, m, u, {}, 1, tables, 0, tables, 1);
  }

  lemma LacksPage(s: St, m: St, tables: set<Node>)
    requires Spent(s, m, {}, 1) && Lacks(m, tables, 0)
    ensures Lacks(s, tables, 1)
  {
    SpentOut(s, m, {}, 1, tables, 0, tables, 1);
  }

  lemma {:induction false} FewerNodes(a: set<Node>, b: set<Node>)
    requires a <= b
    ensures |a| <= |b|
  {
    assert b == a + (b - a);
  }

  lemma LacksMore(s: St, a: set<Node>, i: nat, b: set<Node>, j: nat)
    requires Lacks(s, a, i) && a <= b && i <= j
    ensures Lacks(s, b, j)
  {
    FewerNodes(s.at.Keys + a, s.at.Keys + b);
  }

  /** One table that is there already, or has just come. */
  lemma SpentTable(t: St, u: St, n: Node)
    requires if n in t.at then u == t else u.at.Keys == t.at.Keys + {n} && |u.free| + 1 == |t.free|
    ensures Spent(t, u, {n}, 0)
  {
    if n in t.at {
      assert t.at.Keys + {n} == t.at.Keys;
    } else {
      assert |u.at| == |u.at.Keys| == |t.at.Keys| + 1 == |t.at| + 1;
    }
  }

  /** The tables for the pages from lo to x came from s to t. */
  ghost predicate SpentTo(s: St, t: St, root: nat, lo: nat, x: nat, pages: nat) {
    Spent(s, t, Paths(root, lo, x), pages)
  }

  lemma SpentNone(s: St, root: nat, lo: nat)
    ensures SpentTo(s, s, root, lo, lo, 0)
  {
    assert Paths(root, lo, lo) == {};
  }

  lemma SpentNext(s: St, t: St, u: St, root: nat, lo: nat, x: nat, y: nat, pages: nat, more: nat, all: nat)
    requires lo <= x && y == x + 1 && all == pages + more
    requires SpentTo(s, t, root, lo, x, pages) && Spent(t, u, Path(root, x), more)
    ensures SpentTo(s, u, root, lo, y, all)
  {
    MorePaths(root, lo, x, y);
    SpentMore(s, t, u, Paths(root, lo, x), pages, Path(root, x), more, Paths(root, lo, y), all);
  }

  /** Memory does not suffice for the tables of the pages from lo to y, with so many pages for them. */
  ghost predicate Short(s: St, root: nat, lo: nat, y: nat, pages: nat) {
    Lacks(s, Paths(root, lo, y), pages)
  }

  /** Memory does not suffice for the tables of the pages from lo to x and of page x. */
  ghost predicate ShortAt(s: St, root: nat, lo: nat, x: nat) {
    Lacks(s, Paths(root, lo, x) + Path(root, x), 0)
  }

  lemma ShortHere(s: St, t: St, root: nat, lo: nat, x: nat)
    requires SpentTo(s, t, root, lo, x, 0) && Lacks(t, Path(root, x), 0)
    ensures ShortAt(s, root, lo, x)
  {
    SpentOut(s, t, Paths(root, lo, x), 0, Path(root, x), 0, Paths(root, lo, x) + Path(root, x), 0);
  }

  lemma ShortNext(s: St, t: St, root: nat, lo: nat, x: nat, y: nat, pages: nat, more: nat, all: nat)
    requires lo <= x && y == x + 1 && all == pages + more
    requires SpentTo(s, t, root, lo, x, pages) && Lacks(t, Path(root, x), more)
    ensures Short(s, root, lo, y, all)
  {
    MorePaths(root, lo, x, y);
    SpentOut(s, t, Paths(root, lo, x), pages, Path(root, x), more, Paths(root, lo, y), all);
  }

  lemma ShortMore(s: St, root: nat, lo: nat, y: nat, i: nat, hi: nat, j: nat)
    requires lo <= y <= hi && i <= j && Short(s, root, lo, y, i)
    ensures Short(s, root, lo, hi, j)
  {
    PathsGrow(root, lo, y, hi);
    LacksMore(s, Paths(root, lo, y), i, Paths(root, lo, hi), j);
  }

  /** The pages of address space a below k that are mapped, and the tables that b needs for them. */
  ghost function CopyPages(s: St, a: nat, k: nat): nat {
    if k == 0 then 0 else CopyPages(s, a, k - 1) + if V(Leaf(s, a, k - 1)) then 1 else 0
  }

  ghost function CopyTables(s: St, a: nat, b: nat, k: nat): set<Node> {
    if k == 0 then {}
    else if V(Leaf(s, a, k - 1)) then CopyTables(s, a, b, k - 1) + Path(b, k - 1)
    else CopyTables(s, a, b, k - 1)
  }

  /** Memory does not suffice for copying the first k pages of a to b. */
  ghost predicate CopyLacks(s: St, a: nat, b: nat, k: nat) {
    Lacks(s, CopyTables(s, a, b, k), CopyPages(s, a, k))
  }

  lemma CopyLacksMore(s: St, a: nat, b: nat, k: nat, hi: nat)
    requires k <= hi && CopyLacks(s, a, b, k)
    ensures CopyLacks(s, a, b, hi)
  {
    CopyGrows(s, a, b, k, hi);
    LacksMore(s, CopyTables(s, a, b, k), CopyPages(s, a, k), CopyTables(s, a, b, hi), CopyPages(s, a, hi));
  }

  lemma {:induction false} CopyGrows(s: St, a: nat, b: nat, k: nat, hi: nat)
    requires k <= hi
    ensures CopyPages(s, a, k) <= CopyPages(s, a, hi) && CopyTables(s, a, b, k) <= CopyTables(s, a, b, hi)
  {
    if k < hi { CopyGrows(s, a, b, k, hi - 1); }
  }

  /** The first k pages of a have been copied to b, with what memory that takes. */
  ghost predicate SpentCopying(s: St, t: St, a: nat, b: nat, k: nat) {
    Spent(s, t, CopyTables(s, a, b, k), CopyPages(s, a, k))
  }

  lemma CopyNone(s: St, a: nat, b: nat)
    ensures SpentCopying(s, s, a, b, 0)
  {
    assert CopyTables(s, a, b, 0) == {};
  }

  /** One page more is copied, or passed over. */
  lemma CopySpends(s: St, t: St, u: St, a: nat, b: nat, m: nat)
    requires m > 0 && SpentCopying(s, t, a, b, m - 1)
    requires if V(Leaf(s, a, m - 1)) then Spent(t, u, Path(b, m - 1), 1) else u == t
    ensures SpentCopying(s, u, a, b, m)
  {
    if V(Leaf(s, a, m - 1)) {
      SpentMore(s, t, u, CopyTables(s, a, b, m - 1), CopyPages(s, a, m - 1), Path(b, m - 1), 1,
                CopyTables(s, a, b, m), CopyPages(s, a, m));
    }
  }

  lemma CopyRunsOut(s: St, t: St, a: nat, b: nat, m: nat)
    requires m > 0 && SpentCopying(s, t, a, b, m - 1) && V(Leaf(s, a, m - 1)) && Lacks(t, Path(b, m - 1), 1)
    ensures CopyLacks(s, a, b, m)
  {
    SpentOut(s, t, CopyTables(s, a, b, m - 1), CopyPages(s, a, m - 1), Path(b, m - 1), 1,
             CopyTables(s, a, b, m), CopyPages(s, a, m));
  }
}
