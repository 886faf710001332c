/**
  The locks of kernel/proc.c cannot deadlock: over the runs of module Processes, a processor
  that cannot go on waits for a lock whose holder can, or for wait_lock, whose holder waits at
  most for one p->lock.
 */
module Progress {
  import opened Collections
  import opened Processes
  import opened Family

  /** The lock that the next step of a processor takes. */
  datatype Need = Nothing | WaitLock | ProcLock(k: nat)

  function NeedAt(s: State, p: nat): Need
    requires Sized(s) && p < NPROC
  {
    match s.pc[p]
    case WaitEnter => WaitLock
    case WaitScan(k, _) =>
      if k >= NPROC then ProcLock(p) else if s.procs[k].parent == Some(p) then ProcLock(k) else Nothing
    case WaitTired => ProcLock(p)
    case ExitEnter => WaitLock
    case ExitWakeInit(_, j) => if j < NPROC && j != p then ProcLock(j) else Nothing
    case ExitWakeParent(j) => if j < NPROC && j != p then ProcLock(j) else Nothing
    case ExitLock => ProcLock(p)
    case ForkParent(_) => WaitLock
    case ForkRun(np) => ProcLock(np)
    case _ => Nothing
  }

  function Needs(s: State, c: nat): Need
    requires Sized(s) && c < NCPU
  {
    match s.cpus[c].at
    case InProc => if s.cpus[c].proc.Some? then NeedAt(s, s.cpus[c].proc.value) else Nothing
    case Pass1(k, _) => if k < NPROC then ProcLock(k) else Nothing
    case Pass2(k, _) => if k < NPROC then ProcLock(k) else Nothing
    case _ => Nothing
  }

  /** Some action of processor c is possible. */
  ghost predicate Can(s: State, c: nat)
    requires Sized(s)
  {
    exists act :: Do(s, Proceed(c, act)).Some?
  }

  predicate Granted(s: State, need: Need)
    requires Sized(s)
  {
    match need
    case Nothing => true
    case WaitLock => s.wait == None
    case ProcLock(k) => k < NPROC && s.lock[k] == None
  }

  /** Processor c waits for a lock that d holds. */
  predicate Behind(s: State, c: nat, d: nat)
    requires Sized(s) && c < NCPU
  {
    match Needs(s, c)
    case Nothing => false
    case WaitLock => d != c && s.wait == Some(d)
    case ProcLock(k) => d != c && k < NPROC && s.lock[k] == Some(d)
  }

  /** The slots that a point names exist. */
  predicate InRange(pt: Point) {
    && (pt.WaitChild? ==> pt.k < NPROC)
    && (IsFork(pt) ==> pt.np < NPROC)
  }

  lemma StepIf(s: State, c: nat, p: nat)
    requires Runs(s, c, p) && InRange(s.pc[p]) && !s.pc[p].Dead? && Granted(s, NeedAt(s, p))
    ensures StepProc(s, c, p, if s.pc[p].User? then CallWait else Go).Some?
  {
  }

  lemma CanIf(s: State, b: seq<Fact>, c: nat)
    requires Inv(s) && Kin(s, b) && c < NCPU && Granted(s, Needs(s, c))
    ensures Can(s, c)
  {
    var at := s.cpus[c].at;
    if at.InProc? {
      var p := s.cpus[c].proc.value;
      assert PointOk(s, b, p) && PcFits(s.procs[p], s.pc[p]);
      StepIf(s, c, p);
      assert Do(s, Proceed(c, if s.pc[p].User? then CallWait else Go)).Some?;
    } else {
      assert Do(s, Proceed(c, Go)).Some?;
    }
  }

  /** Who holds a p->lock needs no other lock. */
  lemma HolderFree(s: State, k: nat, d: nat)
    requires Sized(s) && Locks(s) && k < NPROC && s.lock[k] == Some(d)
    ensures d < NCPU && Needs(s, d) == Nothing
  {
    assert HoldsLock(s, d, k);
  }

  /** Who holds wait_lock does not wait for it. */
  lemma WaitHolder(s: State, d: nat)
    requires Sized(s) && Locks(s) && s.wait == Some(d)
    ensures d < NCPU && Needs(s, d) != WaitLock
  {
    assert HoldsWait(s, d);
  }

  lemma NeedInRange(s: State, b: seq<Fact>, c: nat)
    requires Inv(s) && Kin(s, b) && c < NCPU && Needs(s, c).ProcLock?
    ensures Needs(s, c).k < NPROC
  {
    if s.cpus[c].at.InProc? { assert PointOk(s, b, s.cpus[c].proc.value); }
  }

  /** A processor that waits for a p->lock waits for a processor that can go on. */
  lemma Frees(s: State, b: seq<Fact>, c: nat) returns (d: nat)
    requires Inv(s) && Kin(s, b) && c < NCPU && Needs(s, c) != WaitLock
    ensures d < NCPU && Can(s, d) && (d == c || Behind(s, c, d))
  {
    d := c;
    if Needs(s, c).ProcLock? {
      var k := Needs(s, c).k;
      NeedInRange(s, b, c);
      if s.lock[k].Some? {
        d := s.lock[k].value;
        HolderFree(s, k, d);
      }
    }
    CanIf(s, b, d);
  }

  /**
    In every interleaving each processor can go on, or waits for one that can, or waits for
    the holder of wait_lock, which waits for one that can.
   */
  lemma NoDeadlock(r: Run, c: nat) returns (d: nat, e: nat)
    requires IsRun(r) && c < NCPU
    ensures Sized(Final(r)) && d < NCPU && e < NCPU && Can(Final(r), e)
    ensures (d == c || Behind(Final(r), c, d)) && (e == d || Behind(Final(r), d, e))
  {
    RunKin(r);
    var s := Final(r);
    d := c;
    if Needs(s, c) == WaitLock && s.wait.Some? {
      d := s.wait.value;
      WaitHolder(s, d);
    }
    if Needs(s, d) == WaitLock {
      CanIf(s, History(r), d);
      e := d;
    } else {
      e := Frees(s, History(r), d);
    }
  }
}
