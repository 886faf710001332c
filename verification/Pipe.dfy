/**
  The pipe of kernel/pipe.c: a ring of PIPESIZE bytes with 32-bit counters that wrap.

  pipewrite() and piperead() give up the lock only where they sleep, so every interleaving
  of readers and writers is a sequence of the calls below: each runs from the start of the
  system call, or from a wakeup, to the next sleep or to the return.
 */
module Pipe {
  const PIPESIZE: nat := 512
  const UINT: nat := 0x1_0000_0000

  /** Where a stretch of a system call ends. */
  datatype Stop = Sleeps | Returns(r: int)

  /** The bytes in the ring, first the one to be read next. */
  ghost predicate Holds(data: seq<char>, nread: nat, ring: seq<char>) {
    |data| == PIPESIZE && |ring| <= PIPESIZE &&
    forall k :: 0 <= k < |ring| ==> ring[k] == data[(nread + k) % PIPESIZE]
  }

  lemma HoldsPut(data: seq<char>, nread: nat, ring: seq<char>, c: char)
    requires Holds(data, nread, ring) && |ring| < PIPESIZE
    ensures Holds(data[(nread + |ring|) % PIPESIZE := c], nread, ring + [c])
  {
    var d, r := data[(nread + |ring|) % PIPESIZE := c], ring + [c];
    forall k | 0 <= k < |r| ensures r[k] == d[(nread + k) % PIPESIZE] {
      if k < |ring| { Apart(nread, k, |ring|); }
    }
  }

  lemma Apart(n: nat, k: nat, m: nat)
    requires k < m < k + PIPESIZE
    ensures (n + k) % PIPESIZE != (n + m) % PIPESIZE
  {
  }

  lemma HoldsGet(data: seq<char>, nread: nat, ring: seq<char>)
    requires Holds(data, nread, ring) && ring != []
    ensures ring[0] == data[nread % PIPESIZE] && Holds(data, (nread + 1) % UINT, ring[1..])
  {
    forall k | 0 <= k < |ring| - 1 ensures ring[1..][k] == data[((nread + 1) % UINT + k) % PIPESIZE] {
      Wraps(nread + 1, k);
    }
  }

  /** PIPESIZE divides the range of the counters. */
  lemma Wraps(n: nat, k: nat)
    ensures (n % UINT + k) % PIPESIZE == (n + k) % PIPESIZE
  {
    var q := n / UINT;
    assert n + k == n % UINT + k + PIPESIZE * (q * 0x80_0000);
    Shift(n % UINT + k, q * 0x80_0000);
  }

  lemma Shift(a: nat, b: nat)
    ensures (a + PIPESIZE * b) % PIPESIZE == a % PIPESIZE
  {
  }

  class Pipe {
    const data: array<char>
    var nread: nat
    var nwrite: nat
    var readopen: bool
    var writeopen: bool
    ghost var accepted: seq<char>      // all bytes that writers put in
    ghost var delivered: seq<char>     // all bytes that readers got
    ghost var ring: seq<char>

    ghost predicate Valid()
      reads this, data
    {
      && nread < UINT && nwrite == (nread + |ring|) % UINT
      && Holds(data[..], nread, ring) && accepted == delivered + ring
    }

    constructor ()
      ensures Valid() && accepted == [] && delivered == [] && readopen && writeopen
    {
      data := new char[PIPESIZE];
      nread, nwrite, readopen, writeopen := 0, 0, true, true;
      accepted, delivered, ring := [], [], [];
    }

    /** nwrite == nread + PIPESIZE and nread == nwrite, in 32 bits, say full and empty. */
    lemma FullEmpty()
      requires Valid()
      ensures nwrite == (nread + PIPESIZE) % UINT <==> |ring| == PIPESIZE
      ensures nread == nwrite <==> ring == []
    {
    }

    /** The bytes delivered are the first of those accepted, and the ring holds exactly the rest. */
    lemma Fifo()
      requires Valid()
      ensures delivered <= accepted && ring == accepted[|delivered|..] && |ring| <= PIPESIZE
      ensures (nwrite - nread) % UINT == |accepted| - |delivered|
    {
    }

    method Put(c: char)
      requires Valid() && |ring| < PIPESIZE
      modifies data, `nwrite, `accepted, `ring
      ensures Valid() && ring == old(ring) + [c] && accepted == old(accepted) + [c]
    {
      HoldsPut(data[..], nread, ring, c);
      Wraps(nread + |ring|, 0);
      data[nwrite % PIPESIZE] := c;
      nwrite := (nwrite + 1) % UINT;
      accepted, ring := accepted + [c], ring + [c];
    }

    method Get() returns (c: char)
      requires Valid() && ring != []
      modifies `nread, `delivered, `ring
      ensures Valid() && c == old(ring)[0] && ring == old(ring)[1..] && delivered == old(delivered) + [c]
    {
      HoldsGet(data[..], nread, ring);
      c := data[nread % PIPESIZE];
      nread := (nread + 1) % UINT;
      delivered, ring := delivered + [c], ring[1..];
    }

    /**
      pipewrite() with i0 of n bytes done.  The bytes from `readable` on cannot be copied in,
      and the process is seen killed from the `lives`-th test on.
     */
    method Write(src: seq<char>, i0: nat, n: int, readable: nat, lives: nat) returns (i: nat, stop: Stop)
      requires Valid() && n <= |src| && (i0 <= n || i0 == 0)
      modifies data, `nwrite, `accepted, `ring
      ensures Valid() && i0 <= i && (i <= n || i == i0 == 0)
      ensures accepted == old(accepted) + (if i0 < i then src[i0..i] else [])
      ensures i == i0 || (readopen && i - i0 <= lives && i <= readable)
      ensures stop == Returns(-1) <==> i < n && (!readopen || lives <= i - i0)
      ensures stop == Sleeps <==> i < n && readopen && i - i0 < lives && |ring| == PIPESIZE
      ensures stop.Returns? ==> stop.r == i || stop.r == -1
      ensures stop == Returns(i) ==> i >= n || (i >= readable && |ring| < PIPESIZE)
    {
      i := i0;
      while i < n
        invariant Valid() && i0 <= i && (i <= n || i == i0 == 0)
        invariant accepted == old(accepted) + (if i0 < i then src[i0..i] else [])
        invariant i == i0 || (readopen && i - i0 <= lives && i <= readable)
      {
        if !readopen || lives <= i - i0 {
          return i, Returns(-1);
        }
        FullEmpty();
        if nwrite == (nread + PIPESIZE) % UINT {
          return i, Sleeps;
        }
        if i >= readable {
          break;
        }
        Put(src[i]);
        i := i + 1;
      }
      stop := Returns(i);
    }

    /** piperead(); `writable` bytes can be copied out. */
    method Read(n: int, writable: nat, killed: bool) returns (dst: seq<char>, stop: Stop)
      requires Valid()
      modifies `nread, `delivered, `ring
      ensures Valid() && accepted == old(accepted)
      ensures delivered == old(delivered) + dst && |dst| <= writable && (|dst| <= n || dst == [])
      ensures stop == Sleeps <==> old(ring) == [] && writeopen && !killed
      ensures stop == Returns(-1) <==> if old(ring) == [] then writeopen && killed else n > 0 && writable == 0
      ensures stop == Sleeps || stop == Returns(-1) ==> dst == []
      ensures stop.Returns? && stop.r != -1 ==> stop.r == |dst|
      ensures stop.Returns? && stop.r != -1 && |dst| < n ==> ring == [] || |dst| == writable
    {
      dst := [];
      FullEmpty();
      if nread == nwrite && writeopen {
        return [], if killed then Returns(-1) else Sleeps;
      }
      var i := 0;
      while i < n
        invariant Valid() && accepted == old(accepted) && delivered == old(delivered) + dst
        invariant 0 <= i == |dst| && (i <= n || i == 0) && i <= writable
        invariant i == 0 ==> ring == old(ring)
      {
        FullEmpty();
        if nread == nwrite {
          break;
        }
        if i >= writable {
          return dst, Returns(if i == 0 then -1 else i);
        }
        var c := Get();
        dst := dst + [c];
        i := i + 1;
      }
      return dst, Returns(i);
    }

    /** Both ends closed: the page of the pipe is freed. */
    method Close(writable: bool) returns (freed: bool)
      requires Valid()
      modifies `readopen, `writeopen
      ensures Valid()
      ensures if writable then !writeopen && readopen == old(readopen) else !readopen && writeopen == old(writeopen)
      ensures freed <==> !readopen && !writeopen
    {
      if writable {
        writeopen := false;
      } else {
        readopen := false;
      }
      freed := !readopen && !writeopen;
    }
  }
}
