/**
  Who is whose child, over the runs of module Processes: fork(), exit() and wait() as their
  callers see them (kernel/proc.c).

  The history of a run is told by what processes call and by the points they pass, without
  looking at the parent fields.  The fields are then shown to agree with it.
 */
module Family {
  import opened Collections
  import opened Processes

  // --- The history of a run ---

  /**
    Of one slot: its parent; the process that last took the slot in fork(); the channel that it
    called sleep() with outside wait(), if neither wakeup() of that channel nor kill() has come
    since; whether it has called exit() or was killed; its priority.
   */
  datatype Fact = Fact(
    parent: Option<nat>, maker: Option<nat>, asleep: Option<nat>, leaving: bool, killed: bool, priority: int)

  /** The process that makes the step, if one does. */
  function Mover(s: State, step: Step): Option<nat>
    requires Sized(s)
  {
    if step.Proceed? && step.c < NCPU && s.cpus[step.c].at.InProc? then s.cpus[step.c].proc else None
  }

  /** Process p does act. */
  function Note(b: seq<Fact>, s: State, p: nat, act: Action): (n: seq<Fact>)
    requires Sized(s) && p < NPROC == |b|
    ensures |n| == NPROC
  {
    match s.pc[p]
    case User =>
      (match act
       case CallFork(np) =>
         if np < NPROC then b[np := b[np].(maker := Some(p), leaving := false, priority := 10)] else b
       case CallSleep(k) => b[p := b[p].(asleep := Some(k))]
       case CallExit => b[p := b[p].(leaving := true)]
       case _ => b)
    case ForkAlloc(np) => if np < NPROC && act.Fail? then b[np := b[np].(killed := false)] else b
    case ForkLink(np) => if np < NPROC then b[np := b[np].(parent := Some(p))] else b
    case ExitReparent(k) =>
      if k < NPROC && b[k].parent == Some(p) then b[k := b[k].(parent := Some(s.init))] else b
    case WaitChild(k) =>
      if k < NPROC && s.procs[k].state == ZOMBIE && !act.Fail? then b[k := b[k].(parent := None, killed := false)]
      else b
    case _ => b
  }

  function Told(b: seq<Fact>, s: State, step: Step): (n: seq<Fact>)
    requires Sized(s) && |b| == NPROC
    ensures |n| == NPROC
  {
    match step
    case Proceed(_, act) => if Mover(s, step).Some? then Note(b, s, Mover(s, step).value, act) else b
    case Kill(j) => if j < NPROC then b[j := b[j].(killed := true, asleep := None)] else b
    case SetPriority(j, priority) => if j < NPROC then b[j := b[j].(priority := priority)] else b
    case WakeOther(k, j) => if j < NPROC && b[j].asleep == Some(k) then b[j := b[j].(asleep := None)] else b
  }

  ghost function History(r: Run): (b: seq<Fact>)
    requires IsRun(r)
    ensures |b| == NPROC
  {
    match r
    case Boot(_) => seq(NPROC, _ => Fact(None, None, None, false, false, 10))
    case Then(q, step) => Told(History(q), Final(q), step)
  }

  // --- What the state knows of it ---

  /** No slot before n is a child of p. */
  ghost predicate NoKids(procs: seq<Proc>, p: nat, n: nat) {
    forall q :: 0 <= q < n && q < |procs| ==> procs[q].parent != Some(p)
  }

  ghost predicate HasKid(procs: seq<Proc>, p: nat) {
    exists q :: 0 <= q < |procs| && procs[q].parent == Some(p)
  }

  /** The process exists and has not exited. */
  predicate Alive(x: Proc) {
    x.state.SLEEPING? || x.state.RUNNABLE? || x.state.RUNNING?
  }

  /** Slot q is as the history has it. */
  predicate Known(x: Proc, pt: Point, f: Fact, init: bool) {
    && x.parent == f.parent && x.killed == f.killed && x.priority == f.priority
    && (x.parent.Some? ==> x.parent.value < NPROC)
    && (x.state.UNUSED? ==> x.parent == None)
    && (init ==> Alive(x) && x.parent == None)
    && ((Alive(x) || x.state.ZOMBIE?) && !init ==> x.parent.Some?)
    && (x.state.SLEEPING? && x.chan.OtherChan? ==> f.asleep == Some(x.chan.k))
    && (pt.Nap? ==> f.asleep == Some(pt.k))
    && (f.asleep.Some? ==> pt == Nap(f.asleep.value) || (x.state.SLEEPING? && x.chan == OtherChan(f.asleep.value)))
    && (f.leaving ==> IsExit(Core(pt)))
    && (x.state.ZOMBIE? || (IsExit(Core(pt)) && !pt.Dead?) ==> f.leaving)
  }

  predicate KnownAt(s: State, b: seq<Fact>, q: nat)
    requires Sized(s) && q < NPROC == |b|
  {
    Known(s.procs[q], s.pc[q], b[q], q == s.init) && s.procs[q].parent != Some(q)
  }

  /** What process p can rely on at its point. */
  ghost predicate PointOk(s: State, b: seq<Fact>, p: nat)
    requires Sized(s) && p < NPROC == |b|
  {
    && (!Alive(s.procs[p]) ==> NoKids(s.procs, p, NPROC))
    && match Core(s.pc[p])
       case ForkAlloc(np) => np < NPROC && s.procs[np].parent == None && b[np].maker == Some(p)
       case ForkParent(np) => np < NPROC && s.procs[np].parent == None && b[np].maker == Some(p)
       case ForkLink(np) => np < NPROC && s.procs[np].parent == None && b[np].maker == Some(p)
       case ForkRun(np) => np < NPROC && s.procs[np].parent == Some(p) && b[np].maker == Some(p)
       case WaitScan(k, kids) => if kids then HasKid(s.procs, p) else NoKids(s.procs, p, k)
       case WaitChild(k) => k < NPROC && s.procs[k].parent == Some(p)
       case WaitTired => HasKid(s.procs, p)
       case WaitSleep => HasKid(s.procs, p)
       case ExitReparent(k) => NoKids(s.procs, p, k)
       case ExitWakeInit(k, _) => NoKids(s.procs, p, k + 1)
       case ExitWakeParent(_) => NoKids(s.procs, p, NPROC)
       case ExitLock => NoKids(s.procs, p, NPROC)
       case ExitZombie => NoKids(s.procs, p, NPROC)
       case _ => true
  }

  ghost predicate Kin(s: State, b: seq<Fact>) {
    && Sized(s) && |b| == NPROC
    && (forall q {:trigger KnownAt(s, b, q)} :: 0 <= q < NPROC ==> KnownAt(s, b, q))
    && (forall p {:trigger PointOk(s, b, p)} :: 0 <= p < NPROC ==> PointOk(s, b, p))
  }

  // --- Steps that change no parent ---

  /** From s to t slots p and j change, and no parent does. */
  ghost predicate Settled(s: State, t: State, b: seq<Fact>, n: seq<Fact>, p: nat, j: nat) {
    && Sized(s) && Sized(t) && |b| == |n| == NPROC && p < NPROC && j < NPROC && t.init == s.init
    && (forall q :: 0 <= q < NPROC ==> t.procs[q].parent == s.procs[q].parent && n[q].parent == b[q].parent)
    && (forall q :: 0 <= q < NPROC && q != p && q != j ==>
          t.procs[q] == s.procs[q] && t.pc[q] == s.pc[q] && n[q] == b[q])
  }

  lemma SettledKids(s: State, t: State, b: seq<Fact>, n: seq<Fact>, p: nat, j: nat, x: nat, k: nat)
    requires Settled(s, t, b, n, p, j)
    ensures NoKids(s.procs, x, k) == NoKids(t.procs, x, k) && HasKid(s.procs, x) == HasKid(t.procs, x)
  {
    forall q | 0 <= q < NPROC ensures t.procs[q].parent == s.procs[q].parent {}
  }

  lemma SettledOther(s: State, t: State, b: seq<Fact>, n: seq<Fact>, p: nat, j: nat, x: nat)
    requires Settled(s, t, b, n, p, j) && x < NPROC && PointOk(s, b, x) && Core(t.pc[x]) == Core(s.pc[x])
    requires Alive(s.procs[x]) ==> Alive(t.procs[x])
    requires IsFork(Core(s.pc[x])) && Core(s.pc[x]).np < NPROC ==>
      n[Core(s.pc[x]).np].maker == b[Core(s.pc[x]).np].maker
    ensures PointOk(t, n, x)
  {
    var pt := Core(s.pc[x]);
    SettledKids(s, t, b, n, p, j, x, NPROC);
    if pt.WaitScan? || pt.ExitReparent? { SettledKids(s, t, b, n, p, j, x, pt.k); }
    if pt.ExitWakeInit? { SettledKids(s, t, b, n, p, j, x, pt.k + 1); }
  }

  lemma SettledKin(s: State, t: State, b: seq<Fact>, n: seq<Fact>, p: nat, j: nat)
    requires Kin(s, b) && Settled(s, t, b, n, p, j)
    requires PointOk(t, n, p) && PointOk(t, n, j)
    requires KnownAt(t, n, p) && KnownAt(t, n, j)
    requires forall x :: 0 <= x < NPROC && x != p && x != j && IsFork(Core(s.pc[x])) ==>
      Core(s.pc[x]).np < NPROC && n[Core(s.pc[x]).np].maker == b[Core(s.pc[x]).np].maker
    ensures Kin(t, n)
  {
    forall x | 0 <= x < NPROC ensures PointOk(t, n, x) && KnownAt(t, n, x) {
      if x != p && x != j {
        assert PointOk(s, b, x) && KnownAt(s, b, x);
        SettledOther(s, t, b, n, p, j, x);
      }
    }
  }

  /** The process that makes a step of its own. */
  ghost predicate Acts(s: State, b: seq<Fact>, c: nat, p: nat) {
    Inv(s) && Kin(s, b) && Runs(s, c, p)
  }

  lemma ActsIs(s: State, b: seq<Fact>, c: nat, p: nat)
    requires Acts(s, b, c, p)
    ensures KnownAt(s, b, p) && PointOk(s, b, p) && (s.procs[p].state.RUNNING? || s.pc[p].Exited?)
    ensures PcFits(s.procs[p], s.pc[p]) && (s.pc[p].Exited? ==> s.procs[p].state.ZOMBIE?)
    ensures (!s.pc[p].Nap? ==> b[p].asleep == None) && (b[p].leaving ==> IsExit(Core(s.pc[p])))
  {
    assert KnownAt(s, b, p) && PointOk(s, b, p) && PcFits(s.procs[p], s.pc[p]);
  }

  /** From s to t only the record and the point of p change, and not its parent. */
  ghost predicate Own(s: State, t: State, p: nat) {
    && Sized(s) && Sized(t) && p < NPROC && t.init == s.init && t.procs[p].parent == s.procs[p].parent
    && t.procs == s.procs[p := t.procs[p]] && t.pc == s.pc[p := t.pc[p]]
  }

  /** A step of p that changes only its own slot. */
  lemma OwnKin(s: State, t: State, b: seq<Fact>, n: seq<Fact>, p: nat)
    requires Inv(s) && Kin(s, b) && Own(s, t, p) && |n| == NPROC && n == b[p := n[p]]
    requires n[p].maker == b[p].maker && n[p].parent == b[p].parent && PointOk(t, n, p) && KnownAt(t, n, p)
    ensures Kin(t, n)
  {
    SettledKin(s, t, b, n, p, p);
  }

  /** A step of p after which it will be where it was. */
  lemma StayKin(s: State, t: State, b: seq<Fact>, p: nat)
    requires Inv(s) && Kin(s, b) && Own(s, t, p) && Core(t.pc[p]) == Core(s.pc[p])
    requires Alive(s.procs[p]) && Alive(t.procs[p]) && KnownAt(t, b, p)
    ensures Kin(t, b)
  {
    assert PointOk(s, b, p);
    SettledOther(s, t, b, b, p, p, p);
    OwnKin(s, t, b, b, p);
  }

  lemma YieldKin(s: State, b: seq<Fact>, c: nat, p: nat)
    requires Acts(s, b, c, p) && Quiet(s.pc[p]) && YieldFrom(s, c, p).Some?
    ensures Kin(YieldFrom(s, c, p).value, b)
  {
    var t := YieldFrom(s, c, p).value;
    ActsIs(s, b, c, p);
    StayKin(s, t, b, p);
  }

  /** Sleeping, and waking up again. */
  lemma SleepKin(s: State, b: seq<Fact>, c: nat, p: nat, act: Action)
    requires Acts(s, b, c, p) && (s.pc[p].Nap? || s.pc[p].Slept? || s.pc[p].Yielded?) && StepProc(s, c, p, act).Some?
    ensures Kin(StepProc(s, c, p, act).value, b)
  {
    var t := StepProc(s, c, p, act).value;
    ActsIs(s, b, c, p);
    assert Own(s, t, p) && KnownAt(t, b, p);
    if s.pc[p].Nap? { OwnKin(s, t, b, b, p); } else { StayKin(s, t, b, p); }
  }

  lemma CallKin(s: State, b: seq<Fact>, c: nat, p: nat, act: Action)
    requires Acts(s, b, c, p) && s.pc[p].User? && !act.CallFork? && StepUser(s, c, p, act).Some?
    ensures Kin(StepUser(s, c, p, act).value, Note(b, s, p, act))
  {
    var t, n := StepUser(s, c, p, act).value, Note(b, s, p, act);
    ActsIs(s, b, c, p);
    if act.Yield? {
      YieldKin(s, b, c, p);
    } else {
      OwnKin(s, t, b, n, p);
    }
  }

  lemma CallForkSettles(s: State, b: seq<Fact>, c: nat, p: nat, np: nat)
    requires Runs(s, c, p) && |b| == NPROC && s.pc[p].User? && StepUser(s, c, p, CallFork(np)).Some?
    requires s.procs[p].state.RUNNING? && PointOk(s, b, np) && KnownAt(s, b, p) && KnownAt(s, b, np)
    requires PcFits(s.procs[np], s.pc[np])
    ensures var t, n := StepUser(s, c, p, CallFork(np)).value, Note(b, s, p, CallFork(np));
      && Settled(s, t, b, n, p, np) && KnownAt(t, n, p) && KnownAt(t, n, np) && PointOk(t, n, p) && PointOk(t, n, np)
      && s.procs[np].state.UNUSED? && forall q :: 0 <= q < NPROC && q != np ==> n[q].maker == b[q].maker
  {
    var t, n := StepUser(s, c, p, CallFork(np)).value, Note(b, s, p, CallFork(np));
    SettledKids(s, t, b, n, p, np, np, NPROC);
  }

  lemma CallForkKin(s: State, b: seq<Fact>, c: nat, p: nat, np: nat)
    requires Acts(s, b, c, p) && s.pc[p].User? && StepUser(s, c, p, CallFork(np)).Some?
    ensures Kin(StepUser(s, c, p, CallFork(np)).value, Note(b, s, p, CallFork(np)))
  {
    var t, n := StepUser(s, c, p, CallFork(np)).value, Note(b, s, p, CallFork(np));
    ActsIs(s, b, c, p);
    assert KnownAt(s, b, np) && PointOk(s, b, np) && PcFits(s.procs[np], s.pc[np]);
    CallForkSettles(s, b, c, p, np);
    SettledKin(s, t, b, n, p, np);
  }

  /** Process p moves to another point, and no record changes. */
  ghost predicate Moved(s: State, t: State, b: seq<Fact>, p: nat) {
    && Own(s, t, p) && t.procs == s.procs && |b| == NPROC && PointOk(t, b, p)
    && !t.pc[p].Nap? && b[p].asleep == None && (IsExit(Core(t.pc[p])) <==> b[p].leaving)
  }

  lemma MoveKin(s: State, t: State, b: seq<Fact>, p: nat)
    requires Inv(s) && Kin(s, b) && Moved(s, t, b, p) && Alive(s.procs[p])
    ensures Kin(t, b)
  {
    assert KnownAt(s, b, p);
    OwnKin(s, t, b, b, p);
  }

  lemma ScanMoves(s: State, b: seq<Fact>, c: nat, p: nat, act: Action)
    requires Runs(s, c, p) && |b| == NPROC && s.pc[p].WaitScan? && StepWait(s, c, p, act).Some?
    requires PointOk(s, b, p) && Alive(s.procs[p]) && b[p].asleep == None && !b[p].leaving
    ensures Moved(s, StepWait(s, c, p, act).value, b, p)
  {
  }

  lemma WaitMoves(s: State, b: seq<Fact>, c: nat, p: nat, act: Action)
    requires Runs(s, c, p) && |b| == NPROC && IsWait(s.pc[p]) && !s.pc[p].WaitScan? && !s.pc[p].WaitDoze?
    requires StepWait(s, c, p, act).Some? && !(s.pc[p].WaitEnter? && act.Yield?)
    requires s.pc[p].WaitChild? ==> s.pc[p].k < NPROC && (s.procs[s.pc[p].k].state != ZOMBIE || act.Fail?)
    requires PointOk(s, b, p) && Alive(s.procs[p]) && b[p].asleep == None && !b[p].leaving
    ensures Moved(s, StepWait(s, c, p, act).value, b, p)
  {
    if s.pc[p].WaitChild? { assert HasKid(s.procs, p); }
  }

  lemma WaitKin(s: State, b: seq<Fact>, c: nat, p: nat, act: Action)
    requires Acts(s, b, c, p) && IsWait(s.pc[p]) && StepWait(s, c, p, act).Some?
    requires s.pc[p].WaitChild? ==> s.pc[p].k < NPROC && (s.procs[s.pc[p].k].state != ZOMBIE || act.Fail?)
    ensures Kin(StepWait(s, c, p, act).value, b)
  {
    var t := StepWait(s, c, p, act).value;
    ActsIs(s, b, c, p);
    if s.pc[p].WaitEnter? && act.Yield? {
      YieldKin(s, b, c, p);
    } else if s.pc[p].WaitDoze? {
      DozeKin(s, b, c, p, act);
    } else {
      if s.pc[p].WaitScan? { ScanMoves(s, b, c, p, act); } else { WaitMoves(s, b, c, p, act); }
      MoveKin(s, t, b, p);
    }
  }

  lemma DozeKin(s: State, b: seq<Fact>, c: nat, p: nat, act: Action)
    requires Acts(s, b, c, p) && s.pc[p].WaitDoze? && StepWait(s, c, p, act).Some?
    ensures Kin(StepWait(s, c, p, act).value, b)
  {
    var t := StepWait(s, c, p, act).value;
    ActsIs(s, b, c, p);
    assert Own(s, t, p);
    OwnKin(s, t, b, b, p);
  }

  // --- Steps that change a parent, under wait_lock ---

  /**
    From s to t the parent of j changes, to p or to init or to none.  Apart from that only the
    point of p changes, and j remains alive or gone.
   */
  ghost predicate Rehomed(s: State, t: State, b: seq<Fact>, n: seq<Fact>, p: nat, j: nat) {
    && Sized(s) && Sized(t) && |b| == |n| == NPROC && p < NPROC && j < NPROC && t.init == s.init && p != j
    && t.pc == s.pc[p := t.pc[p]] && t.procs == s.procs[j := t.procs[j]] && n == b[j := n[j]]
    && n[j].maker == b[j].maker && n[j].leaving == b[j].leaving && n[j].parent == t.procs[j].parent
    && (Alive(t.procs[j]) <==> Alive(s.procs[j]))
    && (t.procs[j].parent.Some? ==> t.procs[j].parent.value == p || t.procs[j].parent.value == s.init)
  }

  /** The points of others rely on no parent of j. */
  lemma RehomedOther(s: State, t: State, b: seq<Fact>, n: seq<Fact>, p: nat, j: nat, x: nat)
    requires Rehomed(s, t, b, n, p, j) && x < NPROC && x != p && PointOk(s, b, x) && Alive(s.procs[s.init])
    requires !HoldsWaitAt(Core(s.pc[x])) && (IsFork(Core(s.pc[x])) ==> Core(s.pc[x]).np != j)
    ensures PointOk(t, n, x)
  {
  }

  /** Nobody else holds wait_lock. */
  lemma NotHolding(s: State, p: nat, x: nat)
    requires Inv(s) && p < NPROC && x < NPROC && p != x && HoldsWaitAt(s.pc[p])
    ensures !HoldsWaitAt(Core(s.pc[x]))
  {
    assert PcFits(s.procs[x], s.pc[x]);
    if HoldsWaitAt(s.pc[x]) { WaitExclusive(s, p, x); }
  }

  lemma RehomedKin(s: State, t: State, b: seq<Fact>, n: seq<Fact>, p: nat, j: nat)
    requires Inv(s) && Kin(s, b) && Rehomed(s, t, b, n, p, j) && HoldsWaitAt(s.pc[p])
    requires forall x :: 0 <= x < NPROC && x != p && IsFork(Core(s.pc[x])) ==> Core(s.pc[x]).np != j
    requires PointOk(t, n, p) && KnownAt(t, n, p) && KnownAt(t, n, j)
    ensures Kin(t, n)
  {
    assert KnownAt(s, b, s.init);
    forall x | 0 <= x < NPROC ensures PointOk(t, n, x) && KnownAt(t, n, x) {
      assert KnownAt(s, b, x) && PointOk(s, b, x);
      if x != p {
        NotHolding(s, p, x);
        RehomedOther(s, t, b, n, p, j, x);
      }
    }
  }

  /** wait() collects zombie child k. */
  lemma CollectRehomes(s: State, b: seq<Fact>, c: nat, p: nat, k: nat, act: Action)
    requires Runs(s, c, p) && |b| == NPROC && s.pc[p] == WaitChild(k) && k < NPROC && s.procs[k].state.ZOMBIE?
    requires !act.Fail? && s.procs[p].state.RUNNING? && KnownAt(s, b, p) && KnownAt(s, b, k) && s.pc[k].Dead?
    ensures StepWait(s, c, p, act).Some?
    ensures var t, n := StepWait(s, c, p, act).value, Note(b, s, p, act);
      Rehomed(s, t, b, n, p, k) && PointOk(t, n, p) && KnownAt(t, n, p) && KnownAt(t, n, k)
  {
  }

  lemma CollectKin(s: State, b: seq<Fact>, c: nat, p: nat, k: nat, act: Action)
    requires Acts(s, b, c, p) && s.pc[p] == WaitChild(k) && k < NPROC && s.procs[k].state.ZOMBIE? && !act.Fail?
    ensures StepWait(s, c, p, act).Some? && Kin(StepWait(s, c, p, act).value, Note(b, s, p, act))
  {
    ActsIs(s, b, c, p);
    assert KnownAt(s, b, k) && s.pc[k].Dead? by { ZombieDead(s, c, p, k); }
    CollectRehomes(s, b, c, p, k, act);
    RehomedKin(s, StepWait(s, c, p, act).value, b, Note(b, s, p, act), p, k);
  }

  /** A zombie whose lock another process has got is not on a processor any more. */
  lemma ZombieDead(s: State, c: nat, p: nat, k: nat)
    requires Inv(s) && Runs(s, c, p) && s.pc[p] == WaitChild(k) && k < NPROC && s.procs[k].state.ZOMBIE?
    ensures s.pc[k].Dead?
  {
    assert PcFits(s.procs[k], s.pc[k]);
    assert HoldsLock(s, c, k);
    if s.pc[k].Exited? { OffCpu(s, k, c, p); }
  }

  /** exit() gives child k to init. */
  lemma ReparentRehomes(s: State, b: seq<Fact>, c: nat, p: nat, k: nat, act: Action)
    requires Runs(s, c, p) && |b| == NPROC && s.pc[p] == ExitReparent(k) && k < NPROC && s.procs[k].parent == Some(p)
    requires s.procs[p].state.RUNNING? && KnownAt(s, b, p) && KnownAt(s, b, k) && PointOk(s, b, p)
    requires p != k && p != s.init
    ensures StepExit(s, c, p, act).Some?
    ensures var t, n := StepExit(s, c, p, act).value, Note(b, s, p, act);
      Rehomed(s, t, b, n, p, k) && PointOk(t, n, p) && KnownAt(t, n, p) && KnownAt(t, n, k)
  {
  }

  /** A child of p is not being made by another process. */
  lemma NotForked(s: State, b: seq<Fact>, p: nat, k: nat)
    requires Kin(s, b) && k < NPROC && s.procs[k].parent == Some(p)
    ensures forall x :: 0 <= x < NPROC && x != p && IsFork(Core(s.pc[x])) ==> Core(s.pc[x]).np != k
  {
    forall x | 0 <= x < NPROC && x != p && IsFork(Core(s.pc[x])) ensures Core(s.pc[x]).np != k {
      assert PointOk(s, b, x);
    }
  }

  lemma ReparentKin(s: State, b: seq<Fact>, c: nat, p: nat, k: nat, act: Action)
    requires Acts(s, b, c, p) && s.pc[p] == ExitReparent(k) && k < NPROC && s.procs[k].parent == Some(p)
    ensures StepExit(s, c, p, act).Some? && Kin(StepExit(s, c, p, act).value, Note(b, s, p, act))
  {
    ActsIs(s, b, c, p);
    assert KnownAt(s, b, k);
    assert p != s.init && p != k;
    NotForked(s, b, p, k);
    ReparentRehomes(s, b, c, p, k, act);
    RehomedKin(s, StepExit(s, c, p, act).value, b, Note(b, s, p, act), p, k);
  }

  /** fork() links child np to its parent. */
  lemma LinkRehomes(s: State, b: seq<Fact>, c: nat, p: nat, np: nat, act: Action)
    requires Runs(s, c, p) && |b| == NPROC && s.pc[p] == ForkLink(np) && np < NPROC && s.procs[np].state.USED?
    requires s.procs[p].state.RUNNING? && KnownAt(s, b, p) && KnownAt(s, b, np) && PointOk(s, b, p)
    ensures StepFork(s, c, p, act).Some?
    ensures var t, n := StepFork(s, c, p, act).value, Note(b, s, p, act);
      Rehomed(s, t, b, n, p, np) && PointOk(t, n, p) && KnownAt(t, n, p) && KnownAt(t, n, np)
  {
  }

  lemma LinkKin(s: State, b: seq<Fact>, c: nat, p: nat, np: nat, act: Action)
    requires Acts(s, b, c, p) && s.pc[p] == ForkLink(np)
    ensures StepFork(s, c, p, act).Some? && Kin(StepFork(s, c, p, act).value, Note(b, s, p, act))
  {
    ActsIs(s, b, c, p);
    assert KnownAt(s, b, np);
    LinkRehomes(s, b, c, p, np, act);
    RehomedKin(s, StepFork(s, c, p, act).value, b, Note(b, s, p, act), p, np);
  }

  // --- The other steps of exit and fork ---

  /** Process p moves on in exit, and no record changes. */
  lemma ExitMoves(s: State, b: seq<Fact>, c: nat, p: nat, act: Action)
    requires Runs(s, c, p) && |b| == NPROC && PointOk(s, b, p) && Alive(s.procs[p])
    requires b[p].leaving && b[p].asleep == None
    requires StepExit(s, c, p, act).Some? && !s.pc[p].Exited? && !s.pc[p].ExitZombie?
    requires !(s.pc[p].ExitEnter? && act.Yield?) && StepExit(s, c, p, act).value.procs == s.procs
    requires s.pc[p].ExitReparent? && s.pc[p].k < NPROC ==> s.procs[s.pc[p].k].parent != Some(p)
    ensures Moved(s, StepExit(s, c, p, act).value, b, p)
  {
  }

  /** A turn of wakeup() in exit wakes process j. */
  lemma ExitWakes(s: State, b: seq<Fact>, c: nat, p: nat, act: Action)
    requires Runs(s, c, p) && |b| == NPROC && PointOk(s, b, p) && Alive(s.procs[p]) && KnownAt(s, b, p) && b[p].leaving
    requires (s.pc[p].ExitWakeInit? || s.pc[p].ExitWakeParent?) && s.pc[p].j < NPROC && s.pc[p].j != p
    requires PointOk(s, b, s.pc[p].j) && KnownAt(s, b, s.pc[p].j) && StepExit(s, c, p, act).Some?
    ensures var t, j := StepExit(s, c, p, act).value, s.pc[p].j;
      Settled(s, t, b, b, p, j) && PointOk(t, b, p) && PointOk(t, b, j) && KnownAt(t, b, p) && KnownAt(t, b, j)
  {
    var t, j := StepExit(s, c, p, act).value, s.pc[p].j;
    WakeSettles(s, b, c, p, act);
    SettledOther(s, t, b, b, p, j, j);
    SettledKids(s, t, b, b, p, j, p, NPROC);
    if s.pc[p].ExitWakeInit? { SettledKids(s, t, b, b, p, j, p, s.pc[p].k + 1); }
  }

  lemma WakeSettles(s: State, b: seq<Fact>, c: nat, p: nat, act: Action)
    requires Runs(s, c, p) && |b| == NPROC && StepExit(s, c, p, act).Some?
    requires (s.pc[p].ExitWakeInit? || s.pc[p].ExitWakeParent?) && s.pc[p].j < NPROC && s.pc[p].j != p
    ensures var t, j := StepExit(s, c, p, act).value, s.pc[p].j;
      && Settled(s, t, b, b, p, j) && t.procs[p] == s.procs[p] && t.pc[j] == s.pc[j]
      && (t.procs[j] == s.procs[j] || (s.procs[j].state.SLEEPING? && !s.procs[j].chan.OtherChan? &&
                                       t.procs[j] == s.procs[j].(state := RUNNABLE)))
  {
  }

  /** Becoming a zombie, and the last switch. */
  lemma ZombieOwn(s: State, b: seq<Fact>, c: nat, p: nat, act: Action)
    requires Runs(s, c, p) && |b| == NPROC && PointOk(s, b, p) && KnownAt(s, b, p) && p != s.init && b[p].leaving
    requires b[p].asleep == None
    requires (s.pc[p].ExitZombie? && Alive(s.procs[p])) || (s.pc[p].Exited? && s.procs[p].state.ZOMBIE?)
    requires StepExit(s, c, p, act).Some?
    ensures var t := StepExit(s, c, p, act).value; Own(s, t, p) && PointOk(t, b, p) && KnownAt(t, b, p)
  {
    var t := StepExit(s, c, p, act).value;
    SettledKids(s, t, b, b, p, p, p, NPROC);
  }

  lemma ZombieKin(s: State, b: seq<Fact>, c: nat, p: nat, act: Action)
    requires Acts(s, b, c, p) && (s.pc[p].ExitZombie? || s.pc[p].Exited?) && StepExit(s, c, p, act).Some?
    ensures Kin(StepExit(s, c, p, act).value, b)
  {
    ActsIs(s, b, c, p);
    assert p != s.init;
    ZombieOwn(s, b, c, p, act);
    OwnKin(s, StepExit(s, c, p, act).value, b, b, p);
  }

  lemma ExitKin(s: State, b: seq<Fact>, c: nat, p: nat, act: Action)
    requires Acts(s, b, c, p) && IsExit(s.pc[p]) && StepExit(s, c, p, act).Some?
    requires s.pc[p].ExitReparent? && s.pc[p].k < NPROC ==> s.procs[s.pc[p].k].parent != Some(p)
    ensures Kin(StepExit(s, c, p, act).value, b)
  {
    var t, pt := StepExit(s, c, p, act).value, s.pc[p];
    ActsIs(s, b, c, p);
    if pt.ExitEnter? && act.Yield? {
      YieldKin(s, b, c, p);
    } else if pt.ExitZombie? || pt.Exited? {
      ZombieKin(s, b, c, p, act);
    } else if (pt.ExitWakeInit? || pt.ExitWakeParent?) && pt.j < NPROC && pt.j != p {
      assert PointOk(s, b, pt.j) && KnownAt(s, b, pt.j);
      ExitWakes(s, b, c, p, act);
      SettledKin(s, t, b, b, p, pt.j);
    } else {
      ExitMoves(s, b, c, p, act);
      MoveKin(s, t, b, p);
    }
  }

  /** The last step of fork(), and its failure: slot np becomes RUNNABLE or UNUSED. */
  lemma ForkEnds(s: State, b: seq<Fact>, c: nat, p: nat, act: Action)
    requires Runs(s, c, p) && |b| == NPROC && PointOk(s, b, p) && s.procs[p].state.RUNNING? && KnownAt(s, b, p)
    requires (s.pc[p].ForkRun? && !act.Yield?) || (s.pc[p].ForkAlloc? && act.Fail?)
    requires s.pc[p].np < NPROC && PointOk(s, b, s.pc[p].np) && KnownAt(s, b, s.pc[p].np)
    requires s.procs[s.pc[p].np].state.USED? && s.pc[s.pc[p].np] == Yielded(User) && StepFork(s, c, p, act).Some?
    ensures var t, n, np := StepFork(s, c, p, act).value, Note(b, s, p, act), s.pc[p].np;
      && Settled(s, t, b, n, p, np) && (forall q :: 0 <= q < NPROC ==> n[q].maker == b[q].maker)
      && PointOk(t, n, p) && PointOk(t, n, np) && KnownAt(t, n, p) && KnownAt(t, n, np)
  {
    var t, n, np := StepFork(s, c, p, act).value, Note(b, s, p, act), s.pc[p].np;
    SettledKids(s, t, b, n, p, np, np, NPROC);
  }

  lemma ForkMoves(s: State, b: seq<Fact>, c: nat, p: nat, act: Action)
    requires Runs(s, c, p) && |b| == NPROC && PointOk(s, b, p) && Alive(s.procs[p]) && StepFork(s, c, p, act).Some?
    requires b[p].asleep == None && !b[p].leaving
    requires (s.pc[p].ForkAlloc? && !act.Fail?) || (s.pc[p].ForkParent? && !act.Yield?)
    ensures Moved(s, StepFork(s, c, p, act).value, b, p)
  {
  }

  lemma ForkKin(s: State, b: seq<Fact>, c: nat, p: nat, act: Action)
    requires Acts(s, b, c, p) && IsFork(s.pc[p]) && !s.pc[p].ForkLink? && StepFork(s, c, p, act).Some?
    ensures Kin(StepFork(s, c, p, act).value, Note(b, s, p, act))
  {
    var t, np := StepFork(s, c, p, act).value, s.pc[p].np;
    ActsIs(s, b, c, p);
    if (s.pc[p].ForkParent? || s.pc[p].ForkRun?) && act.Yield? {
      YieldKin(s, b, c, p);
    } else if s.pc[p].ForkParent? || (s.pc[p].ForkAlloc? && !act.Fail?) {
      ForkMoves(s, b, c, p, act);
      MoveKin(s, t, b, p);
    } else {
      assert PointOk(s, b, np) && KnownAt(s, b, np) && PcFits(s.procs[np], s.pc[np]);
      ForkEnds(s, b, c, p, act);
      SettledKin(s, t, b, Note(b, s, p, act), p, np);
    }
  }

  // --- Every step ---

  lemma ProcKin(s: State, b: seq<Fact>, c: nat, p: nat, act: Action)
    requires Acts(s, b, c, p) && StepProc(s, c, p, act).Some?
    ensures Kin(StepProc(s, c, p, act).value, Note(b, s, p, act))
  {
    var pt := s.pc[p];
    ActsIs(s, b, c, p);
    if pt.User? {
      if act.CallFork? { CallForkKin(s, b, c, p, act.np); } else { CallKin(s, b, c, p, act); }
    } else if IsWait(pt) {
      if pt.WaitChild? && s.procs[pt.k].state.ZOMBIE? && !act.Fail? {
        CollectKin(s, b, c, p, pt.k, act);
      } else {
        WaitKin(s, b, c, p, act);
      }
    } else if IsFork(pt) {
      if pt.ForkLink? { LinkKin(s, b, c, p, pt.np, act); } else { ForkKin(s, b, c, p, act); }
    } else if IsExit(pt) {
      if pt.ExitReparent? && pt.k < NPROC && s.procs[pt.k].parent == Some(p) {
        ReparentKin(s, b, c, p, pt.k, act);
      } else {
        assert pt.ExitReparent? && pt.k < NPROC ==> KnownAt(s, b, pt.k);
        ExitKin(s, b, c, p, act);
      }
    } else {
      SleepKin(s, b, c, p, act);
    }
  }

  /** sleep() holds the lock of the process until it is asleep. */
  lemma NapLocked(s: State, p: nat)
    requires Inv(s) && p < NPROC && s.lock[p] == None
    ensures !s.pc[p].Nap?
  {
    assert PcFits(s.procs[p], s.pc[p]);
    if s.pc[p].Nap? { assert HoldsLock(s, s.on[p].value, p); }
  }

  /** A step that changes the record of j only, who stays alive or is none. */
  lemma TouchKin(s: State, t: State, b: seq<Fact>, n: seq<Fact>, j: nat)
    requires Inv(s) && Kin(s, b) && Own(s, t, j) && t.pc == s.pc && |n| == NPROC && n == b[j := n[j]]
    requires n[j].maker == b[j].maker && n[j].parent == b[j].parent && KnownAt(t, n, j)
    requires (Alive(s.procs[j]) && Alive(t.procs[j])) || t.procs[j].state == s.procs[j].state
    ensures Kin(t, n)
  {
    assert PointOk(s, b, j);
    SettledOther(s, t, b, n, j, j, j);
    OwnKin(s, t, b, n, j);
  }

  lemma DispatchKin(s: State, b: seq<Fact>, c: nat, k: nat)
    requires Inv(s) && Kin(s, b) && c < NCPU && k < NPROC && s.procs[k].state.RUNNABLE?
    ensures Kin(Dispatch(s, c, k), b)
  {
    assert KnownAt(s, b, k);
    TouchKin(s, Dispatch(s, c, k), b, b, k);
  }

  /** A step of the scheduler that leaves all records alone. */
  lemma IdleKin(s: State, t: State, b: seq<Fact>)
    requires Inv(s) && Kin(s, b) && Sized(t) && t.procs == s.procs && t.pc == s.pc && t.init == s.init
    ensures Kin(t, b)
  {
    assert KnownAt(s, b, 0);
    TouchKin(s, t, b, b, 0);
  }

  lemma SchedKin(s: State, b: seq<Fact>, c: nat)
    requires Inv(s) && Kin(s, b) && c < NCPU && StepSched(s, c).Some?
    ensures Kin(StepSched(s, c).value, b)
  {
    var at := s.cpus[c].at;
    if at.Pass2? && at.k < NPROC && s.procs[at.k].state == RUNNABLE && s.procs[at.k].priority == at.best {
      DispatchKin(s, b, c, at.k);
    } else {
      IdleKin(s, StepSched(s, c).value, b);
    }
  }

  lemma StepKin(s: State, b: seq<Fact>, step: Step)
    requires Inv(s) && Kin(s, b) && Do(s, step).Some?
    ensures Kin(Do(s, step).value, Told(b, s, step))
  {
    match step
    case Proceed(c, act) =>
      if s.cpus[c].at.InProc? { ProcKin(s, b, c, s.cpus[c].proc.value, act); } else { SchedKin(s, b, c); }
    case _ => OutsideKin(s, b, step);
  }

  /** wakeup(), kill() and set_priority(). */
  lemma OutsideKin(s: State, b: seq<Fact>, step: Step)
    requires Inv(s) && Kin(s, b) && !step.Proceed? && Do(s, step).Some?
    ensures Kin(Do(s, step).value, Told(b, s, step))
  {
    assert KnownAt(s, b, step.j);
    NapLocked(s, step.j);
    TouchKin(s, Do(s, step).value, b, Told(b, s, step), step.j);
  }

  lemma {:induction false} RunKin(r: Run)
    requires IsRun(r)
    ensures Inv(Final(r)) && Kin(Final(r), History(r))
  {
    RunInv(r);
    match r
    case Boot(init) =>
      var s, b := Final(r), History(r);
      forall p | 0 <= p < NPROC ensures KnownAt(s, b, p) && PointOk(s, b, p) {}
    case Then(q, step) =>
      RunKin(q);
      StepKin(Final(q), History(q), step);
  }

  // --- Why the state of a process changes ---

  /** Process p, at point pt, does act, and the state of another process goes from x to y. */
  predicate MadeBy(pt: Point, act: Action, q: nat, x: Proc, y: Proc) {
    match x.state
    case UNUSED => pt.User? && act == CallFork(q) && y.state.USED?
    case USED => (pt == ForkRun(q) && y.state.RUNNABLE?) || (pt == ForkAlloc(q) && act.Fail? && y.state.UNUSED?)
    case SLEEPING =>
      y.state.RUNNABLE? && !x.chan.OtherChan? &&
      ((pt.ExitWakeInit? && pt.j == q) || (pt.ExitWakeParent? && pt.j == q))
    case ZOMBIE => pt == WaitChild(q) && !act.Fail? && y == FreeProc(x)
    case _ => false
  }

  /** The fork points of process p name slots that it has taken. */
  predicate ForksOwn(s: State, p: nat)
    requires Sized(s) && p < NPROC
  {
    IsFork(s.pc[p]) ==> s.pc[p].np < NPROC && s.procs[s.pc[p].np].state.USED?
  }

  ghost predicate OthersBy(s: State, t: State, p: nat, act: Action)
    requires Sized(s) && p < NPROC
  {
    |t.procs| == |t.pc| == NPROC &&
    forall q :: 0 <= q < NPROC && q != p && t.procs[q].state != s.procs[q].state ==>
      MadeBy(s.pc[p], act, q, s.procs[q], t.procs[q])
  }

  lemma UserCause(s: State, c: nat, p: nat, act: Action)
    requires Runs(s, c, p) && StepUser(s, c, p, act).Some? && s.pc[p].User?
    ensures OthersBy(s, StepUser(s, c, p, act).value, p, act)
  {
  }

  lemma WaitCause(s: State, c: nat, p: nat, act: Action)
    requires Runs(s, c, p) && StepWait(s, c, p, act).Some? && IsWait(s.pc[p])
    ensures OthersBy(s, StepWait(s, c, p, act).value, p, act)
  {
  }

  lemma ExitCause(s: State, c: nat, p: nat, act: Action)
    requires Runs(s, c, p) && StepExit(s, c, p, act).Some?
    ensures OthersBy(s, StepExit(s, c, p, act).value, p, act)
  {
  }

  lemma ForkCause(s: State, c: nat, p: nat, act: Action)
    requires Runs(s, c, p) && StepFork(s, c, p, act).Some? && IsFork(s.pc[p]) && ForksOwn(s, p)
    ensures OthersBy(s, StepFork(s, c, p, act).value, p, act)
  {
  }

  lemma ProcCause(s: State, c: nat, p: nat, act: Action)
    requires Runs(s, c, p) && StepProc(s, c, p, act).Some? && ForksOwn(s, p)
    ensures OthersBy(s, StepProc(s, c, p, act).value, p, act)
  {
    var pt := s.pc[p];
    if pt.User? {
      UserCause(s, c, p, act);
    } else if IsWait(pt) {
      WaitCause(s, c, p, act);
    } else if IsFork(pt) {
      ForkCause(s, c, p, act);
    } else if !pt.Nap? && !pt.Slept? && !pt.Yielded? {
      ExitCause(s, c, p, act);
    }
  }

  /** Why process q goes from x to y, when its state changes and it does not change it itself. */
  predicate Cause(s: State, step: Step, q: nat, x: Proc, y: Proc)
    requires Sized(s)
  {
    match step
    case Proceed(_, act) =>
      if Mover(s, step).Some? then MadeBy(s.pc[Mover(s, step).value], act, q, x, y)
      else x.state.RUNNABLE? && y.state.RUNNING?
    case WakeOther(k, j) => j == q && x.state.SLEEPING? && x.chan == OtherChan(k) && y.state.RUNNABLE?
    case Kill(j) => j == q && x.state.SLEEPING? && y.state.RUNNABLE?
    case SetPriority(_, _) => false
  }

  lemma MoverCause(s: State, c: nat, act: Action, q: nat)
    requires Inv(s) && Do(s, Proceed(c, act)).Some? && q < NPROC && c < NCPU && s.cpus[c].at.InProc?
    requires s.cpus[c].proc != Some(q)
    ensures |Do(s, Proceed(c, act)).value.procs| == NPROC
    ensures var y := Do(s, Proceed(c, act)).value.procs[q];
      y.state != s.procs[q].state ==> Cause(s, Proceed(c, act), q, s.procs[q], y)
  {
    ProcCause(s, c, s.cpus[c].proc.value, act);
  }

  lemma StepCause(s: State, step: Step, q: nat)
    requires Inv(s) && Do(s, step).Some? && q < NPROC && Mover(s, step) != Some(q)
    ensures |Do(s, step).value.procs| == NPROC
    ensures var y := Do(s, step).value.procs[q];
      y.state != s.procs[q].state ==> Cause(s, step, q, s.procs[q], y)
  {
    if step.Proceed? && s.cpus[step.c].at.InProc? { MoverCause(s, step.c, step.act, q); }
  }

  // --- What callers can tell ---

  /** Slot q is as the history says, and its parent is there. */
  ghost predicate Tree(s: State, b: seq<Fact>, q: nat)
    requires Sized(s) && q < NPROC == |b|
  {
    var x := s.procs[q];
    && x.parent == b[q].parent && x.killed == b[q].killed && x.priority == b[q].priority
    && (x.state.UNUSED? ==> x.parent == None)
    && (x.state.ZOMBIE? ==> b[q].leaving && NoKids(s.procs, q, NPROC))
    && (Alive(x) ==> (b[q].leaving <==> IsExit(Core(s.pc[q]))))
    && (b[q].asleep.Some? ==>
          var k := b[q].asleep.value; s.pc[q] == Nap(k) || (x.state.SLEEPING? && x.chan == OtherChan(k)))
    && ((Alive(x) || x.state.ZOMBIE?) && q != s.init ==> x.parent.Some?)
    && (x.parent.Some? ==> x.parent.value < NPROC && Alive(s.procs[x.parent.value]))
  }

  lemma TreeAt(s: State, b: seq<Fact>, q: nat)
    requires Inv(s) && Kin(s, b) && q < NPROC
    ensures Tree(s, b, q)
  {
    assert KnownAt(s, b, q) && PointOk(s, b, q) && PcFits(s.procs[q], s.pc[q]);
    if s.procs[q].parent.Some? { assert PointOk(s, b, s.procs[q].parent.value); }
  }

  /**
    In every interleaving the parent fields are what the history says, and so are the marks of
    kill() and the priorities.  Every process but init has a parent, which has not exited; free
    slots have none.  A zombie has called exit(), and its children have gone to init.  A process
    that has called exit() stays there.  One that has called sleep() is asleep or about to be,
    unless wakeup() of its channel or kill() has come.
   */
  lemma FamilyTree(r: Run)
    requires IsRun(r)
    ensures Sized(Final(r))
    ensures var s, b := Final(r), History(r);
      forall q {:trigger Tree(s, b, q)} :: 0 <= q < NPROC ==> Tree(s, b, q)
  {
    RunKin(r);
    forall q | 0 <= q < NPROC ensures Tree(Final(r), History(r), q) {
      TreeAt(Final(r), History(r), q);
    }
  }

  /** Slot q is not changed by its own process, and changes state for a reason. */
  ghost predicate Explained(s: State, b: seq<Fact>, step: Step, q: nat)
    requires Sized(s) && q < NPROC == |b| && Do(s, step).Some?
  {
    var t := Do(s, step).value;
    && |t.procs| == |t.pc| == NPROC && Mover(s, step) != Some(q) && KnownAt(s, b, q)
    && (Mover(s, step).Some? ==> PointOk(s, b, Mover(s, step).value))
    && (t.procs[q].state != s.procs[q].state ==> Cause(s, step, q, s.procs[q], t.procs[q]))
  }

  /** A process makes steps only when it is RUNNING, or has just become a zombie and stays one. */
  lemma OwnStep(s: State, step: Step, q: nat)
    requires Inv(s) && Mover(s, step) == Some(q) && Do(s, step).Some?
    ensures q < NPROC && (s.procs[q].state.RUNNING? || s.procs[q].state.ZOMBIE?)
    ensures s.procs[q].state.ZOMBIE? ==> Do(s, step).value.procs == s.procs
  {
    assert PcFits(s.procs[q], s.pc[q]);
  }

  lemma RunExplains(r: Run, step: Step, q: nat)
    requires IsRun(r) && Sized(Final(r)) && q < NPROC && Do(Final(r), step).Some?
    requires !Final(r).procs[q].state.RUNNING? && Do(Final(r), step).value.procs != Final(r).procs
    ensures Explained(Final(r), History(r), step, q)
  {
    var s, b := Final(r), History(r);
    RunKin(r);
    StepInv(s, step);
    if Mover(s, step) == Some(q) { OwnStep(s, step, q); }
    StepCause(s, step, q);
    assert KnownAt(s, b, q);
    if Mover(s, step).Some? { assert PointOk(s, b, Mover(s, step).value); }
  }

  lemma StepSized(r: Run, step: Step)
    requires IsRun(r) && Sized(Final(r)) && Do(Final(r), step).Some?
    ensures Sized(Do(Final(r), step).value)
  {
    RunInv(r);
    StepInv(Final(r), step);
  }

  /**
    fork(): a slot that was taken becomes a process only by the last step of the process that
    took it, and then it is that process's child; or the slot is given back because memory
    could not be copied.
   */
  lemma ForkBears(r: Run, step: Step, q: nat)
    requires IsRun(r) && Sized(Final(r)) && Do(Final(r), step).Some? && q < NPROC && Final(r).procs[q].state.USED?
    ensures Sized(Do(Final(r), step).value)
    ensures var y := Do(Final(r), step).value.procs[q];
      !y.state.USED? ==>
        && History(r)[q].maker.Some? && Mover(Final(r), step) == History(r)[q].maker && y.parent == History(r)[q].parent
        && if y.state.RUNNABLE? then y.parent == Mover(Final(r), step)
           else y.state.UNUSED? && y.parent == None && step.act.Fail?
  {
    StepSized(r, step);
    if !Do(Final(r), step).value.procs[q].state.USED? {
      RunExplains(r, step, q);
      ForkAnswer(Final(r), History(r), step, q);
    }
  }

  lemma ForkAnswer(s: State, b: seq<Fact>, step: Step, q: nat)
    requires Sized(s) && q < NPROC == |b| && Do(s, step).Some? && Explained(s, b, step, q)
    requires s.procs[q].state.USED? && !Do(s, step).value.procs[q].state.USED?
    ensures Mover(s, step).Some?
    ensures var p, y := Mover(s, step).value, Do(s, step).value.procs[q];
      && b[q].maker == Some(p) && y.parent == b[q].parent
      && if y.state.RUNNABLE? then y.parent == Some(p) else y.state.UNUSED? && y.parent == None && step.act.Fail?
  {
  }

  lemma CallStarts(s: State, c: nat, p: nat, act: Action)
    requires Runs(s, c, p) && s.pc[p].User? && StepUser(s, c, p, act).Some?
    ensures var t := StepUser(s, c, p, act).value;
      && |t.pc| == |t.procs| == NPROC && (act.CallWait? ==> IsWait(t.pc[p]))
      && (act.CallFork? ==>
            && act.np < NPROC && s.procs[act.np].state.UNUSED? && t.procs[act.np].state.USED?
            && t.pc[p] == ForkAlloc(act.np) && t.procs[act.np].parent == s.procs[act.np].parent
            && forall q :: 0 <= q < NPROC && q != act.np ==> t.procs[q] == s.procs[q])
  {
  }

  /** A call of wait() or fork() begins: fork() takes a free slot, for its caller alone. */
  lemma CallBegins(r: Run, c: nat, p: nat, act: Action)
    requires IsRun(r) && Runs(Final(r), c, p) && Final(r).pc[p].User? && Do(Final(r), Proceed(c, act)).Some?
    ensures Sized(Do(Final(r), Proceed(c, act)).value)
    ensures var s, t := Final(r), Do(Final(r), Proceed(c, act)).value;
      && (act.CallWait? ==> IsWait(t.pc[p]))
      && (act.CallFork? ==>
            && act.np < NPROC && s.procs[act.np].state.UNUSED? && t.procs[act.np].state.USED?
            && t.pc[p] == ForkAlloc(act.np) && t.procs[act.np].parent == None
            && forall q :: 0 <= q < NPROC && q != act.np ==> t.procs[q] == s.procs[q])
  {
    StepSized(r, Proceed(c, act));
    CallStarts(Final(r), c, p, act);
    RunKin(r);
    if act.CallFork? { assert KnownAt(Final(r), History(r), act.np); }
  }

  /** wait() frees a slot only of a zombie child of its caller, which then returns. */
  lemma WaitCollects(r: Run, step: Step, k: nat)
    requires IsRun(r) && Sized(Final(r)) && Do(Final(r), step).Some? && k < NPROC && Final(r).procs[k].state.ZOMBIE?
    ensures Sized(Do(Final(r), step).value)
    ensures var t := Do(Final(r), step).value;
      !t.procs[k].state.ZOMBIE? ==>
        && t.procs[k] == FreeProc(Final(r).procs[k]) && Mover(Final(r), step).Some?
        && var p := Mover(Final(r), step).value;
           History(r)[k].parent == Some(p) && Final(r).pc[p] == WaitChild(k) && t.pc[p].User?
  {
    StepSized(r, step);
    if !Do(Final(r), step).value.procs[k].state.ZOMBIE? {
      RunExplains(r, step, k);
      CollectAnswer(Final(r), History(r), step, k);
    }
  }

  lemma CollectAnswer(s: State, b: seq<Fact>, step: Step, k: nat)
    requires Sized(s) && k < NPROC == |b| && Do(s, step).Some? && Explained(s, b, step, k)
    requires s.procs[k].state.ZOMBIE? && !Do(s, step).value.procs[k].state.ZOMBIE?
    ensures Mover(s, step).Some?
    ensures var p, t := Mover(s, step).value, Do(s, step).value;
      t.procs[k] == FreeProc(s.procs[k]) && b[k].parent == Some(p) && s.pc[p] == WaitChild(k) && t.pc[p].User?
  {
  }

  lemma OutOfWait(s: State, c: nat, p: nat, act: Action)
    requires Runs(s, c, p) && IsWait(s.pc[p]) && StepWait(s, c, p, act).Some?
    requires StepWait(s, c, p, act).value.pc[p].User?
    ensures s.pc[p].WaitScan? ==> s.pc[p].k >= NPROC && (!s.pc[p].kids || s.procs[p].killed)
    ensures s.pc[p].WaitScan? || (s.pc[p].WaitChild? && s.pc[p].k < NPROC && s.procs[s.pc[p].k].state.ZOMBIE?)
  {
  }

  /** Process p has a zombie child, or was killed, or has no children. */
  ghost predicate MayReturn(s: State, b: seq<Fact>, p: nat)
    requires Sized(s) && p < NPROC == |b|
  {
    || (exists k :: 0 <= k < NPROC && b[k].parent == Some(p) && s.procs[k].state.ZOMBIE?)
    || b[p].killed || Childless(b, p)
  }

  ghost predicate Childless(b: seq<Fact>, p: nat) {
    forall q :: 0 <= q < |b| ==> b[q].parent != Some(p)
  }

  lemma ScanEnds(s: State, b: seq<Fact>, c: nat, p: nat, act: Action)
    requires Runs(s, c, p) && |b| == NPROC && PointOk(s, b, p) && s.procs[p].killed == b[p].killed
    requires s.pc[p].WaitScan? && s.pc[p].k >= NPROC && StepWait(s, c, p, act).Some?
    requires forall q :: 0 <= q < NPROC ==> s.procs[q].parent == b[q].parent
    ensures StepWait(s, c, p, act).value.pc[p].User? <==> b[p].killed || Childless(b, p)
  {
    assert Childless(b, p) <==> !HasKid(s.procs, p);
  }

  /**
    How a process gets out of wait(); after a scan without success it does just if it was killed
    or has no children.
   */
  lemma WaitReturns(r: Run, c: nat, p: nat, act: Action)
    requires IsRun(r) && Runs(Final(r), c, p) && IsWait(Final(r).pc[p]) && Do(Final(r), Proceed(c, act)).Some?
    ensures Sized(Do(Final(r), Proceed(c, act)).value)
    ensures Do(Final(r), Proceed(c, act)).value.pc[p].User? ==> MayReturn(Final(r), History(r), p)
    ensures Final(r).pc[p].WaitScan? && Final(r).pc[p].k >= NPROC ==>
      (Do(Final(r), Proceed(c, act)).value.pc[p].User? <==> History(r)[p].killed || Childless(History(r), p))
  {
    var s, b := Final(r), History(r);
    StepSized(r, Proceed(c, act));
    RunKin(r);
    assert PointOk(s, b, p) && KnownAt(s, b, p);
    SameParents(s, b);
    if s.pc[p].WaitScan? && s.pc[p].k >= NPROC {
      ScanEnds(s, b, c, p, act);
    } else if StepWait(s, c, p, act).value.pc[p].User? {
      OutOfWait(s, c, p, act);
      assert b[s.pc[p].k].parent == Some(p);
    }
  }

  lemma SameParents(s: State, b: seq<Fact>)
    requires Kin(s, b)
    ensures forall q :: 0 <= q < NPROC ==> s.procs[q].parent == b[q].parent
  {
    forall q | 0 <= q < NPROC ensures s.procs[q].parent == b[q].parent {
      assert KnownAt(s, b, q);
    }
  }

  /** A process that goes to sleep in wait() has children, and none of them is a zombie. */
  lemma WaitSleeps(r: Run, p: nat)
    requires IsRun(r) && p < NPROC && Sized(Final(r)) && Final(r).pc[p].WaitSleep?
    ensures exists q :: 0 <= q < NPROC && History(r)[q].parent == Some(p)
    ensures forall q :: 0 <= q < NPROC && History(r)[q].parent == Some(p) ==> !Final(r).procs[q].state.ZOMBIE?
  {
    var s, b := Final(r), History(r);
    RunKin(r);
    SameParents(s, b);
    assert PointOk(s, b, p) && HolderOk(s, p);
    var q :| 0 <= q < NPROC && s.procs[q].parent == Some(p);
    assert b[q].parent == Some(p);
    forall x | 0 <= x < NPROC && b[x].parent == Some(p) ensures !s.procs[x].state.ZOMBIE? {
      assert !ZombieChild(s, x, p);
    }
  }

  /** What may end the sleep of process j, which is in state x. */
  predicate Wakes(s: State, step: Step, j: nat, x: Proc, f: Fact)
    requires Sized(s)
  {
    if x.chan.OtherChan? then step == Kill(j) || (f.asleep.Some? && step == WakeOther(f.asleep.value, j))
    else step == Kill(j) || (Mover(s, step).Some? && IsExit(s.pc[Mover(s, step).value]))
  }

  /**
    sleep() and wakeup(): a process asleep outside wait() is woken by wakeup() of the channel
    that it called sleep() with, and by kill(), and by nothing else.  A sleep in wait() is ended
    by kill() or by an exiting process.
   */
  lemma SleeperWakes(r: Run, step: Step, j: nat)
    requires IsRun(r) && Sized(Final(r)) && Do(Final(r), step).Some? && j < NPROC && Final(r).procs[j].state.SLEEPING?
    ensures Sized(Do(Final(r), step).value)
    ensures var x, y, f := Final(r).procs[j], Do(Final(r), step).value.procs[j], History(r)[j];
      && (y.state.RUNNABLE? || y.state.SLEEPING?)
      && (y.state.RUNNABLE? ==> Wakes(Final(r), step, j, x, f))
      && (step == Kill(j) || (x.chan.OtherChan? && step == WakeOther(x.chan.k, j)) ==> y.state.RUNNABLE?)
  {
    StepSized(r, step);
    RunKin(r);
    assert KnownAt(Final(r), History(r), j);
    if Do(Final(r), step).value.procs[j].state != Final(r).procs[j].state {
      RunExplains(r, step, j);
    }
  }
}
