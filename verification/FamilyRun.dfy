/**
  A run of module Processes in which all of kernel/proc.c takes part: init is scheduled and
  forks, the child is scheduled on another processor and exits, and init collects it.
 */
module FamilyRun {
  import opened Collections
  import opened Processes
  import opened Family

  /** No lock is held, no process sleeps, and init is process 0. */
  ghost predicate Calm(s: State) {
    && Sized(s) && s.init == 0 && s.wait == None && (forall k :: 0 <= k < NPROC ==> s.lock[k] == None)
    && (forall k :: 0 <= k < NPROC ==> !s.procs[k].state.SLEEPING?)
  }

  /** Process j alone is RUNNABLE, with priority 10. */
  ghost predicate Only(s: State, j: nat)
    requires Sized(s)
  {
    j < NPROC && s.procs[j].priority == 10 && forall k :: 0 <= k < NPROC ==> (s.procs[k].state.RUNNABLE? <==> k == j)
  }

  /** The first pass of the scheduler of processor c from slot k on. */
  lemma {:induction false} PassOne(r: Run, c: nat, k: nat, j: nat) returns (t: Run)
    requires IsRun(r) && Calm(Final(r)) && c < NCPU && Only(Final(r), j) && k <= NPROC
    requires Final(r).cpus[c] == Cpu(None, Pass1(k, if j < k then 10 else 21))
    ensures IsRun(t) && Final(t) == At(Final(r), c, Pass1(NPROC, 10))
    decreases NPROC - k
  {
    var s := Final(r);
    if k == NPROC {
      t := r;
      assert At(s, c, Pass1(NPROC, 10)).cpus == s.cpus;
    } else {
      var q := Then(r, Proceed(c, Go));
      t := PassOne(q, c, k + 1, j);
      assert Final(q).cpus[c := Cpu(None, Pass1(NPROC, 10))] == s.cpus[c := Cpu(None, Pass1(NPROC, 10))];
    }
  }

  /** The second pass, up to the dispatch of j. */
  lemma {:induction false} PassTwo(r: Run, c: nat, k: nat, j: nat) returns (t: Run)
    requires IsRun(r) && Calm(Final(r)) && c < NCPU && Only(Final(r), j) && k <= j
    requires Final(r).cpus[c] == Cpu(None, Pass2(k, 10))
    ensures IsRun(t) && Final(t) == Dispatch(Final(r), c, j)
    decreases j - k
  {
    var s := Final(r);
    var q := Then(r, Proceed(c, Go));
    if k == j {
      t := q;
    } else {
      t := PassTwo(q, c, k + 1, j);
      assert Dispatch(Final(q), c, j).cpus == Dispatch(s, c, j).cpus;
    }
  }

  /** Processor c runs the one RUNNABLE process j, which was switched out by yield or is new. */
  lemma Scheduled(r: Run, c: nat, j: nat) returns (t: Run)
    requires IsRun(r) && Calm(Final(r)) && c < NCPU && Only(Final(r), j)
    requires Final(r).cpus[c] == Cpu(None, Pass1(0, 21)) && Final(r).pc[j] == Yielded(User)
    ensures IsRun(t) && Calm(Final(t)) && Runs(Final(t), c, j)
    ensures Final(t).procs == Final(r).procs[j := Final(r).procs[j].(state := RUNNING)]
    ensures Final(t).pc == Final(r).pc[j := User]
    ensures Final(t).cpus == Final(r).cpus[c := Cpu(Some(j), InProc)]
  {
    var s := Final(r);
    var a := PassOne(r, c, 0, j);
    var b := Then(a, Proceed(c, Go));
    assert Final(b) == At(s, c, Pass2(0, 10)) by {
      assert Final(b).cpus == s.cpus[c := Cpu(None, Pass2(0, 10))];
    }
    var d := PassTwo(b, c, 0, j);
    assert Final(d).cpus == s.cpus[c := Cpu(Some(j), InProc)];
    t := Then(d, Proceed(c, Go));
    assert Final(t).lock[j] == None;
  }

  /** One step of process p, from the end of r to u. */
  lemma Steps(r: Run, c: nat, p: nat, act: Action, u: State) returns (t: Run)
    requires IsRun(r) && Runs(Final(r), c, p) && StepProc(Final(r), c, p, act) == Some(u)
    ensures IsRun(t) && Final(t) == u && t == Then(r, Proceed(c, act))
  {
    t := Then(r, Proceed(c, act));
  }

  /** The first half of fork() by process p: the slot is taken and its memory copied. */
  lemma ForkTakes(r: Run, c: nat, p: nat, np: nat, x: Proc) returns (t: Run)
    requires IsRun(r) && Calm(Final(r)) && Runs(Final(r), c, p) && Final(r).pc[p].User?
    requires np < NPROC && np != p && Final(r).procs[np].state.UNUSED?
    requires x == Final(r).procs[np].(state := USED, priority := 10)
    ensures IsRun(t) && Final(t) ==
      Final(r).(procs := Final(r).procs[np := x], pc := Final(r).pc[np := Yielded(User)][p := ForkParent(np)])
  {
    var s := Final(r);
    var u := s.(procs := s.procs[np := x], pc := s.pc[np := Yielded(User)][p := ForkAlloc(np)],
                lock := s.lock[np := Some(c)]);
    var a := Steps(r, c, p, CallFork(np), u);
    var v := u.(pc := u.pc[p := ForkParent(np)], lock := s.lock);
    assert u.lock[np := None] == s.lock;
    t := Steps(a, c, p, Go, v);
    assert v.pc == s.pc[np := Yielded(User)][p := ForkParent(np)];
  }

  /** The second half: the child gets its parent and becomes RUNNABLE. */
  lemma ForkGives(r: Run, c: nat, p: nat, np: nat) returns (t: Run)
    requires IsRun(r) && Calm(Final(r)) && Runs(Final(r), c, p) && np < NPROC && np != p
    requires Final(r).pc[p] == ForkParent(np)
    ensures IsRun(t) && Final(t) == Final(r).(pc := Final(r).pc[p := User],
      procs := Final(r).procs[np := Final(r).procs[np].(state := RUNNABLE, parent := Some(p))])
  {
    var s := Final(r);
    var x := s.procs[np].(parent := Some(p));
    var b := ForkLinks(r, c, p, np, x);
    var v := Final(b);
    var w := s.(pc := s.pc[p := User], procs := s.procs[np := x.(state := RUNNABLE)]);
    assert v.pc[p := User] == w.pc && v.procs[np := x.(state := RUNNABLE)] == w.procs;
    t := Steps(b, c, p, Go, w);
  }

  lemma ForkLinks(r: Run, c: nat, p: nat, np: nat, x: Proc) returns (b: Run)
    requires IsRun(r) && Calm(Final(r)) && Runs(Final(r), c, p) && np < NPROC && np != p
    requires Final(r).pc[p] == ForkParent(np) && x == Final(r).procs[np].(parent := Some(p))
    ensures IsRun(b)
    ensures Final(b) == Final(r).(pc := Final(r).pc[p := ForkRun(np)], procs := Final(r).procs[np := x])
  {
    var s := Final(r);
    var u := s.(pc := s.pc[p := ForkLink(np)], wait := Some(c));
    var a := Steps(r, c, p, Go, u);
    var v := s.(pc := s.pc[p := ForkRun(np)], procs := s.procs[np := x]);
    assert u.pc[p := ForkRun(np)] == v.pc;
    b := Steps(a, c, p, Go, v);
  }

  /** fork() by process p, undisturbed. */
  lemma Forks(r: Run, c: nat, p: nat, np: nat) returns (t: Run)
    requires IsRun(r) && Calm(Final(r)) && Runs(Final(r), c, p) && Final(r).pc[p].User?
    requires np < NPROC && np != p && Final(r).procs[np].state.UNUSED?
    ensures IsRun(t) && Calm(Final(t)) && Runs(Final(t), c, p) && Final(t).cpus == Final(r).cpus
    ensures Final(t).pc == Final(r).pc[np := Yielded(User)]
    ensures Final(t).procs ==
      Final(r).procs[np := Final(r).procs[np].(state := RUNNABLE, priority := 10, parent := Some(p))]
  {
    var s := Final(r);
    var x := s.procs[np].(state := USED, priority := 10);
    var a := ForkTakes(r, c, p, np, x);
    t := ForkGives(a, c, p, np);
    assert Final(t).pc == s.pc[np := Yielded(User)];
    assert Final(t).procs == s.procs[np := x.(state := RUNNABLE, parent := Some(p))];
  }

  /** reparent() of a process without children, from slot k on. */
  lemma {:induction false} Reparents(r: Run, c: nat, p: nat, k: nat) returns (t: Run)
    requires IsRun(r) && Runs(Final(r), c, p) && Final(r).pc[p] == ExitReparent(k) && k <= NPROC
    requires NoKids(Final(r).procs, p, NPROC)
    ensures IsRun(t) && Final(t) == SetPc(Final(r), p, ExitReparent(NPROC))
    decreases NPROC - k
  {
    var s := Final(r);
    if k == NPROC {
      t := r;
      assert s.pc[p := ExitReparent(NPROC)] == s.pc;
    } else {
      var q := Then(r, Proceed(c, Go));
      t := Reparents(q, c, p, k + 1);
      assert Final(q).pc[p := ExitReparent(NPROC)] == s.pc[p := ExitReparent(NPROC)];
    }
  }

  /** wakeup() of the parent when nobody sleeps, from slot j on. */
  lemma {:induction false} WakesNobody(r: Run, c: nat, p: nat, j: nat) returns (t: Run)
    requires IsRun(r) && Runs(Final(r), c, p) && Final(r).pc[p] == ExitWakeParent(j) && j <= NPROC
    requires forall k :: 0 <= k < NPROC ==> Final(r).lock[k] == None && !Final(r).procs[k].state.SLEEPING?
    ensures IsRun(t) && Final(t) == SetPc(Final(r), p, ExitWakeParent(NPROC))
    decreases NPROC - j
  {
    var s := Final(r);
    if j == NPROC {
      t := r;
      assert s.pc[p := ExitWakeParent(NPROC)] == s.pc;
    } else {
      var q := Then(r, Proceed(c, Go));
      t := WakesNobody(q, c, p, j + 1);
      assert Final(q).pc[p := ExitWakeParent(NPROC)] == s.pc[p := ExitWakeParent(NPROC)];
    }
  }

  /** exit() of a process without children, up to the point where it becomes a zombie. */
  lemma Exits(r: Run, c: nat, p: nat) returns (t: Run)
    requires IsRun(r) && Calm(Final(r)) && Runs(Final(r), c, p) && Final(r).pc[p].User? && p != 0
    requires NoKids(Final(r).procs, p, NPROC)
    ensures IsRun(t) && Final(t) == ZombieOn(Final(r), c, p)
  {
    var s := Final(r);
    var a := Steps(r, c, p, CallExit, SetPc(s, p, ExitEnter));
    var u := SetPc(s, p, ExitReparent(0)).(wait := Some(c));
    assert s.pc[p := ExitEnter][p := ExitReparent(0)] == u.pc;
    var b := Steps(a, c, p, Go, u);
    var d := Reparents(b, c, p, 0);
    var v := SetPc(s, p, ExitWakeParent(0)).(wait := Some(c));
    assert Final(d).pc[p := ExitWakeParent(0)] == v.pc;
    var e := Steps(d, c, p, Go, v);
    var f := WakesNobody(e, c, p, 0);
    assert Final(f).pc == s.pc[p := ExitWakeParent(NPROC)];
    t := ExitsOn(f, s, c, p);
  }

  /** Process p has become a zombie on processor c. */
  function ZombieOn(s: State, c: nat, p: nat): State
    requires Sized(s) && p < NPROC
  {
    s.(procs := s.procs[p := s.procs[p].(state := ZOMBIE)], pc := s.pc[p := Exited], lock := s.lock[p := Some(c)])
  }

  /** The end of exit(), after the wakeup. */
  lemma ExitsOn(f: Run, s: State, c: nat, p: nat) returns (t: Run)
    requires IsRun(f) && Calm(s) && Runs(s, c, p)
    requires Final(f) == SetPc(s, p, ExitWakeParent(NPROC)).(wait := Some(c))
    ensures IsRun(t) && Final(t) == ZombieOn(s, c, p)
  {
    var h := ExitLocks(f, s, c, p);
    assert Final(h).pc[p := Exited] == ZombieOn(s, c, p).pc;
    t := Steps(h, c, p, Go, ZombieOn(s, c, p));
  }

  lemma ExitLocks(f: Run, s: State, c: nat, p: nat) returns (h: Run)
    requires IsRun(f) && Calm(s) && Runs(s, c, p)
    requires Final(f) == SetPc(s, p, ExitWakeParent(NPROC)).(wait := Some(c))
    ensures IsRun(h)
    ensures Final(h) == s.(pc := s.pc[p := ExitZombie], wait := Some(c), lock := s.lock[p := Some(c)])
  {
    var u := s.(pc := s.pc[p := ExitLock], wait := Some(c));
    assert Final(f).pc[p := ExitLock] == u.pc;
    var g := Steps(f, c, p, Go, u);
    var v := s.(pc := s.pc[p := ExitZombie], wait := Some(c), lock := s.lock[p := Some(c)]);
    assert u.pc[p := ExitZombie] == v.pc;
    h := Steps(g, c, p, Go, v);
  }

  /** The processor of a zombie goes back to its scheduler, which releases the zombie's lock. */
  lemma Leaves(r: Run, c: nat, p: nat) returns (t: Run)
    requires IsRun(r) && Runs(Final(r), c, p) && Final(r).pc[p].Exited? && Final(r).wait == None && Final(r).init == 0
    requires forall k :: 0 <= k < NPROC ==> (k != p ==> Final(r).lock[k] == None) && !Final(r).procs[k].state.SLEEPING?
    ensures IsRun(t) && Calm(Final(t)) && Final(t).procs == Final(r).procs && Final(t).pc == Final(r).pc[p := Dead]
    ensures Final(t).cpus == Final(r).cpus[c := Cpu(None, Pass1(0, 21))]
  {
    var a := Then(r, Proceed(c, Go));
    assert Final(a).cpus == Final(r).cpus[c := Cpu(Some(p), Back(p))];
    t := Then(a, Proceed(c, Go));
  }

  /** wait() by process p, whose first child is zombie k, from slot j of the scan on. */
  lemma {:induction false} Scans(r: Run, c: nat, p: nat, j: nat, k: nat) returns (t: Run)
    requires IsRun(r) && Runs(Final(r), c, p) && Final(r).pc[p] == WaitScan(j, false) && j <= k < NPROC
    requires NoKids(Final(r).procs, p, k)
    ensures IsRun(t) && Final(t) == SetPc(Final(r), p, WaitScan(k, false))
    decreases k - j
  {
    var s := Final(r);
    if j == k {
      t := r;
      assert s.pc[p := WaitScan(k, false)] == s.pc;
    } else {
      var q := Then(r, Proceed(c, Go));
      t := Scans(q, c, p, j + 1, k);
      assert Final(q).pc[p := WaitScan(k, false)] == s.pc[p := WaitScan(k, false)];
    }
  }

  lemma Collects(r: Run, c: nat, p: nat, k: nat) returns (t: Run)
    requires IsRun(r) && Calm(Final(r)) && Runs(Final(r), c, p) && Final(r).pc[p].User? && k < NPROC && k != p
    requires Final(r).procs[k].state.ZOMBIE? && Final(r).procs[k].parent == Some(p) && NoKids(Final(r).procs, p, k)
    ensures IsRun(t) && Final(t) == SetProc(Final(r), k, FreeProc(Final(r).procs[k]))
  {
    var s := Final(r);
    var a := Steps(r, c, p, CallWait, SetPc(s, p, WaitEnter));
    var u := SetPc(s, p, WaitScan(0, false)).(wait := Some(c));
    assert s.pc[p := WaitEnter][p := WaitScan(0, false)] == u.pc;
    var b := Steps(a, c, p, Go, u);
    var d := Scans(b, c, p, 0, k);
    assert Final(d).pc == s.pc[p := WaitScan(k, false)];
    t := CollectsOn(d, s, c, p, k);
  }

  /** The end of wait(), when the scan has come to zombie k. */
  lemma CollectsOn(d: Run, s: State, c: nat, p: nat, k: nat) returns (t: Run)
    requires IsRun(d) && Calm(s) && Runs(s, c, p) && s.pc[p].User? && k < NPROC && k != p
    requires s.procs[k].state.ZOMBIE? && s.procs[k].parent == Some(p)
    requires Final(d) == SetPc(s, p, WaitScan(k, false)).(wait := Some(c))
    ensures IsRun(t) && Final(t) == SetProc(s, k, FreeProc(s.procs[k]))
  {
    var v := s.(pc := s.pc[p := WaitChild(k)], wait := Some(c), lock := s.lock[k := Some(c)]);
    assert Final(d).pc[p := WaitChild(k)] == v.pc;
    var e := Steps(d, c, p, Go, v);
    var w := SetProc(s, k, FreeProc(s.procs[k]));
    assert v.pc[p := User] == w.pc && v.lock[k := None] == w.lock;
    t := Steps(e, c, p, Go, w);
  }

  /** In run z process 1 is a zombie child of init, and in run t, which goes on from it, it has been collected. */
  lemma Life() returns (z: Run, t: Run)
    ensures IsRun(z) && Sized(Final(z)) && ZombieChild(Final(z), 1, 0) && History(z)[1].parent == Some(0)
    ensures IsRun(t) && Sized(Final(t)) && Final(t).procs[1].state.UNUSED? && History(t)[1].parent == None
  {
    var s := Start(0);
    assert Calm(s) && Only(s, 0);
    var a := Scheduled(Boot(0), 0, 0);
    var b := Forks(a, 0, 0, 1);
    assert Only(Final(b), 1);
    var d := Scheduled(b, 1, 1);
    z := Exits(d, 1, 1);
    var e := Leaves(z, 1, 1);
    t := Collects(e, 0, 0, 1);
    Recalls(z);
    Recalls(t);
  }

  /** The history has the parent of slot 1. */
  lemma Recalls(r: Run)
    requires IsRun(r)
    ensures Sized(Final(r)) && History(r)[1].parent == Final(r).procs[1].parent
    ensures Final(r).procs[1].state.UNUSED? ==> Final(r).procs[1].parent == None
  {
    RunKin(r);
    TreeAt(Final(r), History(r), 1);
  }
}
