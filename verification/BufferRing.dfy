/**
  The code of kernel/bio.c: buffers in a ring linked through prev and next.

  A pointer to a buffer is its index; HEAD stands for &bcache.head.  The ring is shown
  to be the list of module BufferCache, and each method to perform that module's step.
 */
module BufferRing {
  import opened BufferCache
  import opened Params
  import opened Collections

  const HEAD: nat := NBUF

  /** The k-th element after HEAD; position -1 and the end are HEAD itself. */
  function At(order: seq<nat>, k: int): nat {
    if 0 <= k < |order| then order[k] else HEAD
  }

  /** next and prev link the elements of `order`, in both directions, through HEAD. */
  ghost predicate Linked(order: seq<nat>, nx: seq<nat>, pv: seq<nat>) {
    && |nx| == |pv| == NBUF + 1
    && Distinct(order) && (forall k :: 0 <= k < |order| ==> order[k] < NBUF)
    && (forall k :: -1 <= k < |order| ==> nx[At(order, k)] == At(order, k + 1))
    && (forall k :: -1 <= k < |order| ==> pv[At(order, k + 1)] == At(order, k))
  }

  lemma Unlink(order: seq<nat>, nx: seq<nat>, pv: seq<nat>, k: nat)
    requires Linked(order, nx, pv) && k < |order|
    ensures var b := order[k];
      && nx[b] <= NBUF && pv[b] <= NBUF
      && Linked(order[..k] + order[k + 1..], nx[pv[b] := nx[b]], pv[nx[b] := pv[b]])
  {
    var b := order[k];
    var rest := order[..k] + order[k + 1..];
    assert At(order, k) == b && nx[b] == At(order, k + 1) && pv[At(order, k)] == At(order, k - 1);
    var nx', pv' := nx[pv[b] := nx[b]], pv[nx[b] := pv[b]];
    forall j | -1 <= j < |rest|
      ensures nx'[At(rest, j)] == At(rest, j + 1) && pv'[At(rest, j + 1)] == At(rest, j)
    {
      var j' := if j < k then j else j + 1;
      assert At(rest, j) == At(order, j');
      assert At(rest, j + 1) == At(order, if j + 1 < k then j + 1 else j + 2);
      assert nx[At(order, j')] == At(order, j' + 1);
      assert pv[At(order, j' + 1)] == At(order, j');
    }
  }

  lemma PushFront(order: seq<nat>, nx: seq<nat>, pv: seq<nat>, b: nat)
    requires Linked(order, nx, pv) && b < NBUF && b !in order
    ensures nx[HEAD] <= NBUF
    ensures Linked([b] + order, nx[b := nx[HEAD]][HEAD := b], pv[b := HEAD][nx[HEAD] := b])
  {
    assert At(order, -1) == HEAD && nx[HEAD] == At(order, 0);
    var all := [b] + order;
    var nx', pv' := nx[b := nx[HEAD]][HEAD := b], pv[b := HEAD][nx[HEAD] := b];
    forall j | -1 <= j < |all|
      ensures nx'[At(all, j)] == At(all, j + 1) && pv'[At(all, j + 1)] == At(all, j)
    {
      if j > 0 {
        assert At(all, j) == At(order, j - 1) && At(all, j + 1) == At(order, j);
        assert nx[At(order, j - 1)] == At(order, j) && pv[At(order, j)] == At(order, j - 1);
      }
    }
  }

  class Ring {
    const bufs: array<Buf>
    const next: array<nat>
    const prev: array<nat>
    var disk: map<Key, Block>
    ghost var order: seq<nat>

    ghost predicate Valid()
      reads this, bufs, next, prev
    {
      && bufs.Length == NBUF && next.Length == NBUF + 1 && prev.Length == NBUF + 1
      && next != prev
      && Linked(order, next[..], prev[..])
      && Permutation(order)
    }

    ghost function Contents(): (c: Cache)
      reads this, bufs
      requires bufs.Length == NBUF
    {
      Cache(order, bufs[..], disk)
    }

    constructor (disk: map<Key, Block>)
      ensures Valid() && Contents() == Init(disk).c && fresh(bufs) && fresh(next) && fresh(prev)
    {
      this.disk := disk;
      bufs := new Buf[NBUF](_ => Buf(0, 0, false, 0, [], false, 0));
      next, prev := new nat[NBUF + 1](_ => HEAD), new nat[NBUF + 1](_ => HEAD);
      order := [];
      new;
      for b := 0 to NBUF
        modifies next, prev, `order
        invariant Linked(order, next[..], prev[..])
        invariant |order| == b && forall k :: 0 <= k < b ==> order[k] == b - 1 - k
      {
        PushFront(order, next[..], prev[..], b);
        next[b] := next[HEAD];
        prev[b] := HEAD;
        prev[next[HEAD]] := b;
        next[HEAD] := b;
        order := [b] + order;
      }
      assert order == Init(disk).c.order;
      assert bufs[..] == Init(disk).c.bufs;
      InitInv(disk);
    }

    /** bget's first loop: the most recent buffer of the block, or HEAD. */
    method Lookup(key: Key) returns (b: nat)
      requires Valid()
      ensures b == At(order, FirstMatch(order, bufs[..], key))
    {
      ghost var k := 0;
      b := next[HEAD];
      assert At(order, -1) == HEAD;
      while b != HEAD
        invariant 0 <= k <= |order| && b == At(order, k)
        invariant forall j :: 0 <= j < k ==> bufs[order[j]].Key() != key
        decreases |order| - k
      {
        if bufs[b].Key() == key {
          assert k == FirstMatch(order, bufs[..], key);
          return;
        }
        b := next[b];
        k := k + 1;
      }
      assert FirstMatch(order, bufs[..], key) == |order|;
    }

    /** bget's second loop: the least recently released buffer that is unused, or HEAD. */
    method Oldest() returns (b: nat)
      requires Valid()
      ensures b == At(order, LastUnused(order, bufs[..]) - 1)
    {
      ghost var k := |order|;
      b := prev[HEAD];
      assert At(order, |order|) == HEAD;
      while b != HEAD
        invariant 0 <= k <= |order| && b == At(order, k - 1)
        invariant forall j :: k <= j < |order| ==> bufs[order[j]].refcnt != 0
        decreases k
      {
        if bufs[b].refcnt == 0 {
          assert k == LastUnused(order, bufs[..]);
          return;
        }
        b := prev[b];
        k := k - 1;
      }
    }

    /** bget's two loops, under bcache.lock; -1 stands for the panic. */
    method Bget(key: Key) returns (i: int)
      requires Valid()
      modifies bufs
      ensures Valid() && i == Chosen(old(Contents()), key)
      ensures i < 0 ==> Contents() == old(Contents())
      ensures i >= 0 ==> Contents() == Update(old(Contents()), i, Taken(old(bufs[i]), key))
      ensures i >= 0 ==> Obtained(old(Contents()), Contents(), i, key)
    {
      var b := Lookup(key);
      if b != HEAD {
        bufs[b] := bufs[b].(refcnt := bufs[b].refcnt + 1);
        return b;
      }
      b := Oldest();
      if b != HEAD {
        bufs[b] := bufs[b].(dev := key.0, blockno := key.1, valid := false, refcnt := 1);
        return b;
      }
      return -1;
    }

    method Bpin(i: nat)
      requires Valid() && i < NBUF
      modifies bufs
      ensures Valid() && Contents() == Update(old(Contents()), i, old(bufs[i]).(refcnt := old(bufs[i]).refcnt + 1))
    {
      bufs[i] := bufs[i].(refcnt := bufs[i].refcnt + 1);
    }

    method Bunpin(i: nat)
      requires Valid() && i < NBUF
      modifies bufs
      ensures Valid() && Contents() == Update(old(Contents()), i, old(bufs[i]).(refcnt := old(bufs[i]).refcnt - 1))
    {
      bufs[i] := bufs[i].(refcnt := bufs[i].refcnt - 1);
    }

    /** The rest of brelse, after releasesleep: give up the reference. */
    method Drop(i: nat)
      requires Valid() && i < NBUF
      modifies bufs, next, prev, `order
      ensures Valid()
      ensures Contents() ==
        var c := Update(old(Contents()), i, old(bufs[i]).(refcnt := old(bufs[i]).refcnt - 1));
        if c.bufs[i].refcnt == 0 then c.(order := ToFront(c.order, i)) else c
    {
      bufs[i] := bufs[i].(refcnt := bufs[i].refcnt - 1);
      if bufs[i].refcnt == 0 {
        MoveToFront(i);
      }
    }

    method MoveToFront(b: nat)
      requires Valid() && b < NBUF
      modifies next, prev, `order
      ensures Valid() && order == ToFront(old(order), b)
    {
      ghost var k := ToFrontIs(order, b);
      ghost var rest := order[..k] + order[k + 1..];
      Unlink(order, next[..], prev[..], k);
      prev[next[b]] := prev[b];
      next[prev[b]] := next[b];
      assert Linked(rest, next[..], prev[..]);
      PushFront(rest, next[..], prev[..], b);
      next[b] := next[HEAD];
      prev[b] := HEAD;
      prev[next[HEAD]] := b;
      next[HEAD] := b;
      order := [b] + rest;
    }

    /** bread, once bget has returned and the sleep lock is held. */
    method Fill(i: nat)
      requires Valid() && i < NBUF && bufs[i].Key() in disk
      modifies bufs
      ensures Valid() && Contents() == Update(old(Contents()), i,
        if old(bufs[i]).valid then old(bufs[i]) else old(bufs[i]).(data := disk[old(bufs[i]).Key()], valid := true))
    {
      if !bufs[i].valid {
        bufs[i] := bufs[i].(data := disk[bufs[i].Key()]);
        bufs[i] := bufs[i].(valid := true);
      }
    }

    /** bwrite; false stands for the panic of a caller that does not hold the lock. */
    method Bwrite(p: Pid, i: nat) returns (ok: bool)
      requires Valid() && i < NBUF
      modifies `disk
      ensures Valid() && ok == Holds(old(Contents()), p, i)
      ensures disk == if ok then old(disk)[bufs[i].Key() := bufs[i].data] else old(disk)
    {
      ok := bufs[i].locked && bufs[i].pid == p;
      if ok {
        disk := disk[bufs[i].Key() := bufs[i].data];
      }
    }
  }
}
