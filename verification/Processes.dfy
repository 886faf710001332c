/**
  The process protocol (kernel/proc.c): sleep and wakeup, exit and wait, fork, and the
  switch between processes and schedulers, interleaved over NCPU processors.

  wait_lock and every p->lock are explicit owners in the state.  A critical section
  that takes one p->lock and touches only that process is one step, which needs the
  lock to be free; the sections that nest locks or hand one over are taken step by step.
 */
module Processes {
  import opened Collections

  const NPROC: nat := 64
  const NCPU: nat := 8

  datatype RunState = UNUSED | USED | SLEEPING | RUNNABLE | RUNNING | ZOMBIE

  /** Sleep channels: the address of a process, or of anything else. */
  datatype Chan = NoChan | ProcChan(p: nat) | OtherChan(k: nat)

  datatype Proc = Proc(state: RunState, chan: Chan, killed: bool, parent: Option<nat>, priority: int)

  /** Where a process is in the kernel.  Comments say which locks its processor holds. */
  datatype Point =
    | User                               // none: user code, or kernel code outside this model
    | Nap(k: nat)                        // own lock: sleep on another channel
    | Slept(back: Point)                 // switched out by sleep; own lock when resumed
    | Yielded(back: Point)               // switched out by yield, or new; own lock when resumed
    | WaitEnter                          // none: before acquire(&wait_lock)
    | WaitScan(k: nat, kids: bool)       // wait_lock
    | WaitChild(k: nat)                  // wait_lock and lock k
    | WaitTired                          // wait_lock: no child to collect
    | WaitSleep                          // wait_lock and own lock: inside sleep
    | WaitDoze                           // own lock: wait_lock was released
    | ExitEnter                          // none: before acquire(&wait_lock)
    | ExitReparent(k: nat)               // wait_lock
    | ExitWakeInit(k: nat, j: nat)       // wait_lock: wakeup(initproc) on behalf of child k
    | ExitWakeParent(j: nat)             // wait_lock
    | ExitLock                           // wait_lock
    | ExitZombie                         // wait_lock and own lock
    | Exited                             // own lock, state is ZOMBIE
    | ForkAlloc(np: nat)                 // lock np
    | ForkParent(np: nat)                // none: before acquire(&wait_lock)
    | ForkLink(np: nat)                  // wait_lock
    | ForkRun(np: nat)                   // none: before acquire(&np->lock)
    | Dead                               // never resumed

  /** What a processor does: run its process, or some point of scheduler(). */
  datatype Place =
    | InProc
    | Pass1(k: nat, best: int)
    | Pass2(k: nat, best: int)
    | Back(p: nat)                       // swtch has returned; lock p
    | Wfi

  datatype Cpu = Cpu(proc: Option<nat>, at: Place)

  /** `on` is the inverse of the processors' proc fields. */
  datatype State = State(
    procs: seq<Proc>, pc: seq<Point>, lock: seq<Option<nat>>, wait: Option<nat>, cpus: seq<Cpu>,
    on: seq<Option<nat>>, init: nat)

  datatype Action =
    | Go                                 // the next thing the code does
    | Yield                              // a timer interrupt where no lock is held
    | CallSleep(k: nat) | CallWait | CallExit | CallFork(np: nat)
    | Fail                               // copyout fails in wait; uvmcopy fails in fork

  /** One step of a processor, or a short section on process j run by any of them. */
  datatype Step =
    | Proceed(c: nat, act: Action)
    | WakeOther(k: nat, j: nat)          // one turn of wakeup(chan k)
    | Kill(j: nat)
    | SetPriority(j: nat, priority: int)

  predicate Sized(s: State) {
    && |s.procs| == |s.pc| == |s.lock| == |s.on| == NPROC
    && |s.cpus| == NCPU
    && s.init < NPROC
    && (forall c :: 0 <= c < NCPU && s.cpus[c].proc.Some? ==> s.cpus[c].proc.value < NPROC)
  }

  // --- Building blocks ---

  function SetProc(s: State, j: nat, x: Proc): State
    requires Sized(s) && j < NPROC
  {
    s.(procs := s.procs[j := x])
  }

  function SetPc(s: State, p: nat, pt: Point): State
    requires Sized(s) && p < NPROC
  {
    s.(pc := s.pc[p := pt])
  }

  function SetLock(s: State, j: nat, owner: Option<nat>): State
    requires Sized(s) && j < NPROC
  {
    s.(lock := s.lock[j := owner])
  }

  /** One turn of wakeup, with lock j held only inside the step. */
  function Wake(s: State, j: nat, chan: Chan): State
    requires Sized(s) && j < NPROC
  {
    if s.procs[j].state == SLEEPING && s.procs[j].chan == chan
    then SetProc(s, j, s.procs[j].(state := RUNNABLE)) else s
  }

  function FreeProc(x: Proc): Proc {
    x.(state := UNUSED, chan := NoChan, killed := false, parent := None)
  }

  /** sched(): back to the scheduler of processor c, which now holds lock p. */
  function Sched(s: State, c: nat, p: nat, pt: Point): State
    requires Sized(s) && c < NCPU && p < NPROC
  {
    SetPc(s, p, pt).(cpus := s.cpus[c := s.cpus[c].(at := Back(p))])
  }

  function YieldFrom(s: State, c: nat, p: nat): Option<State>
    requires Sized(s) && c < NCPU && p < NPROC
  {
    if s.lock[p] != None then None
    else Some(Sched(SetProc(SetLock(s, p, Some(c)), p, s.procs[p].(state := RUNNABLE)), c, p, Yielded(s.pc[p])))
  }

  function TakeWait(s: State, c: nat, p: nat, pt: Point): Option<State>
    requires Sized(s) && p < NPROC
  {
    if s.wait == None then Some(SetPc(s, p, pt).(wait := Some(c))) else None
  }

  function TakeLock(s: State, c: nat, p: nat, j: nat, pt: Point): Option<State>
    requires Sized(s) && p < NPROC && j < NPROC
  {
    if s.lock[j] == None then Some(SetPc(SetLock(s, j, Some(c)), p, pt)) else None
  }

  // --- The code of a process ---

  function StepUser(s: State, c: nat, p: nat, act: Action): Option<State>
    requires Sized(s) && c < NCPU && p < NPROC
  {
    match act
    case Yield => YieldFrom(s, c, p)
    case CallSleep(k) => TakeLock(s, c, p, p, Nap(k))
    case CallWait => Some(SetPc(s, p, WaitEnter))
    case CallExit => if p == s.init then None else Some(SetPc(s, p, ExitEnter))
    case CallFork(np) =>
      if np < NPROC && s.lock[np] == None && s.procs[np].state == UNUSED then
        var x := s.procs[np].(state := USED, priority := 10);
        Some(SetPc(SetPc(SetProc(SetLock(s, np, Some(c)), np, x), np, Yielded(User)), p, ForkAlloc(np)))
      else None
    case _ => None
  }

  function StepWait(s: State, c: nat, p: nat, act: Action): Option<State>
    requires Sized(s) && c < NCPU && p < NPROC
  {
    match s.pc[p]
    case WaitEnter => if act.Yield? then YieldFrom(s, c, p) else TakeWait(s, c, p, WaitScan(0, false))
    case WaitScan(k, kids) =>
      if k < NPROC then
        if s.procs[k].parent == Some(p) then TakeLock(s, c, p, k, WaitChild(k))
        else Some(SetPc(s, p, WaitScan(k + 1, kids)))
      else if s.lock[p] != None then None          // killed(p)
      else if !kids || s.procs[p].killed then Some(SetPc(s, p, User).(wait := None))
      else Some(SetPc(s, p, WaitTired))
    case WaitChild(k) =>
      if k >= NPROC then None
      else if s.procs[k].state != ZOMBIE then Some(SetPc(SetLock(s, k, None), p, WaitScan(k + 1, true)))
      else
        var t := SetPc(SetLock(s, k, None), p, User).(wait := None);
        Some(if act.Fail? then t else SetProc(t, k, FreeProc(s.procs[k])))
    case WaitTired => TakeLock(s, c, p, p, WaitSleep)
    case WaitSleep => Some(SetPc(s, p, WaitDoze).(wait := None))
    case WaitDoze =>
      Some(Sched(SetProc(s, p, s.procs[p].(chan := ProcChan(p), state := SLEEPING)), c, p, Slept(WaitEnter)))
    case _ => None
  }

  function ParentChan(s: State, p: nat): Chan
    requires Sized(s) && p < NPROC
  {
    match s.procs[p].parent case None => NoChan case Some(q) => ProcChan(q)
  }

  function StepExit(s: State, c: nat, p: nat, act: Action): Option<State>
    requires Sized(s) && c < NCPU && p < NPROC
  {
    match s.pc[p]
    case ExitEnter => if act.Yield? then YieldFrom(s, c, p) else TakeWait(s, c, p, ExitReparent(0))
    case ExitReparent(k) =>
      if k >= NPROC then Some(SetPc(s, p, ExitWakeParent(0)))
      else if s.procs[k].parent == Some(p) then
        Some(SetPc(SetProc(s, k, s.procs[k].(parent := Some(s.init))), p, ExitWakeInit(k, 0)))
      else Some(SetPc(s, p, ExitReparent(k + 1)))
    case ExitWakeInit(k, j) =>
      if j >= NPROC then Some(SetPc(s, p, ExitReparent(k + 1)))
      else if j == p then Some(SetPc(s, p, ExitWakeInit(k, j + 1)))
      else if s.lock[j] != None then None
      else Some(SetPc(Wake(s, j, ProcChan(s.init)), p, ExitWakeInit(k, j + 1)))
    case ExitWakeParent(j) =>
      if j >= NPROC then Some(SetPc(s, p, ExitLock))
      else if j == p then Some(SetPc(s, p, ExitWakeParent(j + 1)))
      else if s.lock[j] != None then None
      else Some(SetPc(Wake(s, j, ParentChan(s, p)), p, ExitWakeParent(j + 1)))
    case ExitLock => TakeLock(s, c, p, p, ExitZombie)
    case ExitZombie => Some(SetPc(SetProc(s, p, s.procs[p].(state := ZOMBIE)), p, Exited).(wait := None))
    case Exited => Some(Sched(s, c, p, Dead))
    case _ => None
  }

  function StepFork(s: State, c: nat, p: nat, act: Action): Option<State>
    requires Sized(s) && c < NCPU && p < NPROC
  {
    match s.pc[p]
    case ForkAlloc(np) =>
      if np >= NPROC then None
      else if act.Fail? then Some(SetPc(SetLock(SetProc(s, np, FreeProc(s.procs[np])), np, None), p, User))
      else Some(SetPc(SetLock(s, np, None), p, ForkParent(np)))
    case ForkParent(np) => if act.Yield? then YieldFrom(s, c, p) else TakeWait(s, c, p, ForkLink(np))
    case ForkLink(np) =>
      if np >= NPROC then None
      else Some(SetPc(SetProc(s, np, s.procs[np].(parent := Some(p))), p, ForkRun(np)).(wait := None))
    case ForkRun(np) =>
      if act.Yield? then YieldFrom(s, c, p)
      else if np >= NPROC || s.lock[np] != None then None
      else Some(SetPc(SetProc(s, np, s.procs[np].(state := RUNNABLE)), p, User))
    case _ => None
  }

  function StepProc(s: State, c: nat, p: nat, act: Action): Option<State>
    requires Sized(s) && c < NCPU && p < NPROC
  {
    match s.pc[p]
    case User => StepUser(s, c, p, act)
    case Nap(k) => Some(Sched(SetProc(s, p, s.procs[p].(chan := OtherChan(k), state := SLEEPING)), c, p, Slept(User)))
    case Slept(back) => Some(SetPc(SetLock(SetProc(s, p, s.procs[p].(chan := NoChan)), p, None), p, back))
    case Yielded(back) => Some(SetPc(SetLock(s, p, None), p, back))
    case Dead => None
    case _ =>
      if IsWait(s.pc[p]) then StepWait(s, c, p, act)
      else if IsFork(s.pc[p]) then StepFork(s, c, p, act)
      else StepExit(s, c, p, act)
  }

  predicate IsWait(pt: Point) {
    pt.WaitEnter? || pt.WaitScan? || pt.WaitChild? || pt.WaitTired? || pt.WaitSleep? || pt.WaitDoze?
  }

  predicate IsFork(pt: Point) {
    pt.ForkAlloc? || pt.ForkParent? || pt.ForkLink? || pt.ForkRun?
  }

  // --- scheduler() ---

  function StepSched(s: State, c: nat): Option<State>
    requires Sized(s) && c < NCPU
  {
    match s.cpus[c].at
    case InProc => None
    case Pass1(k, best) =>
      if k >= NPROC then Some(At(s, c, if best <= 20 then Pass2(0, best) else Wfi))
      else if s.lock[k] != None then None
      else
        var x := s.procs[k];
        Some(At(s, c, Pass1(k + 1, if x.state == RUNNABLE && x.priority < best then x.priority else best)))
    case Pass2(k, best) =>
      if k >= NPROC then Some(At(s, c, Wfi))
      else if s.lock[k] != None then None
      else if s.procs[k].state == RUNNABLE && s.procs[k].priority == best then Some(Dispatch(s, c, k))
      else Some(At(s, c, Pass2(k + 1, best)))
    case Back(p) =>
      if p >= NPROC then None
      else Some(SetLock(s, p, None).(cpus := s.cpus[c := Cpu(None, Pass1(0, 21))], on := s.on[p := None]))
    case Wfi => Some(At(s, c, Pass1(0, 21)))
  }

  function At(s: State, c: nat, place: Place): State
    requires Sized(s) && c < NCPU
  {
    s.(cpus := s.cpus[c := s.cpus[c].(at := place)])
  }

  /** Run process k on processor c, which keeps lock k for the process to release. */
  function Dispatch(s: State, c: nat, k: nat): State
    requires Sized(s) && c < NCPU && k < NPROC
  {
    SetProc(SetLock(s, k, Some(c)), k, s.procs[k].(state := RUNNING)).(
      cpus := s.cpus[c := Cpu(Some(k), InProc)], on := s.on[k := Some(c)])
  }

  // --- One step of the machine ---

  function Do(s: State, step: Step): Option<State>
    requires Sized(s)
  {
    match step
    case Proceed(c, act) =>
      if c >= NCPU then None
      else if s.cpus[c].at.InProc? then
        if s.cpus[c].proc.None? then None else StepProc(s, c, s.cpus[c].proc.value, act)
      else StepSched(s, c)
    case WakeOther(k, j) => if j < NPROC && s.lock[j] == None then Some(Wake(s, j, OtherChan(k))) else None
    case Kill(j) =>
      if j >= NPROC || s.lock[j] != None then None
      else Some(SetProc(s, j, s.procs[j].(killed := true, state :=
        if s.procs[j].state == SLEEPING then RUNNABLE else s.procs[j].state)))
    case SetPriority(j, priority) =>
      if j >= NPROC || s.lock[j] != None || priority < 1 || priority > 20 then None
      else Some(SetProc(s, j, s.procs[j].(priority := priority)))
  }

  // --- The invariant ---

  predicate HoldsWaitAt(pt: Point) {
    || pt.WaitScan? || pt.WaitChild? || pt.WaitTired? || pt.WaitSleep? || pt.ForkLink?
    || pt.ExitReparent? || pt.ExitWakeInit? || pt.ExitWakeParent? || pt.ExitLock? || pt.ExitZombie?
  }

  /** Process p, at point pt and on a processor, holds lock k. */
  predicate HoldsLockAt(pt: Point, p: nat, k: nat) {
    match pt
    case WaitChild(j) => k == j
    case ForkAlloc(np) => k == np
    case Nap(_) => k == p
    case Slept(_) => k == p
    case Yielded(_) => k == p
    case WaitSleep => k == p
    case WaitDoze => k == p
    case ExitZombie => k == p
    case Exited => k == p
    case _ => false
  }

  predicate HoldsWait(s: State, c: nat)
    requires Sized(s) && c < NCPU
  {
    s.cpus[c].at.InProc? && s.cpus[c].proc.Some? && HoldsWaitAt(s.pc[s.cpus[c].proc.value])
  }

  predicate HoldsLock(s: State, c: nat, k: nat)
    requires Sized(s) && c < NCPU
  {
    match s.cpus[c].at
    case InProc => s.cpus[c].proc.Some? && HoldsLockAt(s.pc[s.cpus[c].proc.value], s.cpus[c].proc.value, k)
    case Back(p) => k == p
    case _ => false
  }

  /** Mutual exclusion: the locks' owners are the processors whose code holds them. */
  ghost predicate Locks(s: State)
    requires Sized(s)
  {
    && (s.wait.Some? ==> s.wait.value < NCPU)
    && (forall c :: 0 <= c < NCPU ==> (s.wait == Some(c) <==> HoldsWait(s, c)))
    && (forall k :: 0 <= k < NPROC && s.lock[k].Some? ==> s.lock[k].value < NCPU)
    && (forall c, k :: 0 <= c < NCPU && 0 <= k < NPROC ==> (s.lock[k] == Some(c) <==> HoldsLock(s, c, k)))
  }

  /** Points at which no lock is held, where a process may yield. */
  predicate Quiet(pt: Point) {
    pt.User? || pt.WaitEnter? || pt.ExitEnter? || pt.ForkParent? || pt.ForkRun?
  }

  predicate PcFits(x: Proc, pt: Point) {
    && (pt.Slept? || pt.Yielded? ==> Quiet(pt.back))
    && (x.state != UNUSED ==> 1 <= x.priority <= 20)
    && match x.state
       case UNUSED => pt.Dead? || pt.Yielded?
       case USED => pt == Yielded(User)
       case SLEEPING => pt.Slept?
       case RUNNABLE => pt.Slept? || pt.Yielded?
       case RUNNING => !pt.Dead? && !pt.Exited?
       case ZOMBIE => pt.Exited? || pt.Dead?
  }

  ghost predicate Placed(s: State)
    requires Sized(s)
  {
    ProcsPlaced(s) && CpusPlaced(s)
  }

  ghost predicate ProcsPlaced(s: State)
    requires Sized(s)
  {
    && (forall p :: 0 <= p < NPROC ==> PcFits(s.procs[p], s.pc[p]))
    && (forall p :: 0 <= p < NPROC && (s.procs[p].state == RUNNING || s.pc[p].Exited?) ==> s.on[p].Some?)
    && (forall p :: 0 <= p < NPROC && s.on[p].Some? ==> s.on[p].value < NCPU && s.cpus[s.on[p].value].proc == Some(p))
  }

  ghost predicate CpusPlaced(s: State)
    requires Sized(s)
  {
    && (forall c :: 0 <= c < NCPU && s.cpus[c].proc.Some? ==> s.on[s.cpus[c].proc.value] == Some(c))
    && (forall c :: 0 <= c < NCPU ==>
          match s.cpus[c].at
          case InProc =>
            s.cpus[c].proc.Some? &&
            (s.procs[s.cpus[c].proc.value].state == RUNNING || s.pc[s.cpus[c].proc.value] == Exited)
          case Back(p) =>
            && s.cpus[c].proc == Some(p)
            && (s.pc[p].Slept? || s.pc[p].Yielded? || s.pc[p].Dead?)
            && s.procs[p].state in {SLEEPING, RUNNABLE, ZOMBIE}
          case _ => s.cpus[c].proc == None)
  }

  /** Where a process will be once it has resumed. */
  function Core(pt: Point): Point {
    match pt case Slept(back) => back case Yielded(back) => back case _ => pt
  }

  /** A child being made belongs to the process that forks it. */
  ghost predicate Forking(s: State)
    requires Sized(s)
  {
    && (forall p :: 0 <= p < NPROC && IsFork(Core(s.pc[p])) ==>
          Core(s.pc[p]).np < NPROC && s.procs[Core(s.pc[p]).np].state == USED)
    && (forall p, q :: 0 <= p < q < NPROC && IsFork(Core(s.pc[p])) && IsFork(Core(s.pc[q])) ==>
          Core(s.pc[p]).np != Core(s.pc[q]).np)
  }

  /** Process p is asleep in wait, or about to be: its scan is over and wait_lock is released. */
  predicate Waiter(s: State, p: nat)
    requires Sized(s) && p < NPROC
  {
    s.pc[p] == WaitDoze || (s.procs[p].state == SLEEPING && s.procs[p].chan == ProcChan(p))
  }

  predicate ZombieChild(s: State, q: nat, p: nat)
    requires Sized(s) && q < NPROC
  {
    s.procs[q].parent == Some(p) && s.procs[q].state == ZOMBIE
  }

  /** Process x is exiting and has just given q to init, which it has yet to wake. */
  predicate HandsOver(s: State, x: nat, q: nat)
    requires Sized(s) && x < NPROC
  {
    s.pc[x].ExitWakeInit? && s.pc[x].k == q && s.pc[x].j <= s.init
  }

  /** What the process that holds wait_lock has made sure of so far. */
  ghost predicate HolderOk(s: State, h: nat)
    requires Sized(s) && h < NPROC
  {
    match s.pc[h]
    case ExitWakeInit(k, j) => j > s.init ==> !Waiter(s, s.init)
    case ExitWakeParent(j) => forall p :: 0 <= p < NPROC && p < j && s.procs[h].parent == Some(p) ==> !Waiter(s, p)
    case ExitLock => forall p :: 0 <= p < NPROC && s.procs[h].parent == Some(p) ==> !Waiter(s, p)
    case ExitZombie => forall p :: 0 <= p < NPROC && s.procs[h].parent == Some(p) ==> !Waiter(s, p)
    case WaitScan(k, _) => forall q :: 0 <= q < NPROC && q < k ==> !ZombieChild(s, q, h)
    case WaitChild(k) => forall q :: 0 <= q < NPROC && q < k ==> !ZombieChild(s, q, h)
    case WaitTired => forall q :: 0 <= q < NPROC ==> !ZombieChild(s, q, h)
    case WaitSleep => forall q :: 0 <= q < NPROC ==> !ZombieChild(s, q, h)
    case _ => true
  }

  /** A waiter with a zombie child is init, and its wakeup is on the way. */
  ghost predicate Awaited(s: State)
    requires Sized(s)
  {
    forall p, q :: 0 <= p < NPROC && 0 <= q < NPROC && Waiter(s, p) && ZombieChild(s, q, p) ==>
      p == s.init && exists x :: 0 <= x < NPROC && HandsOver(s, x, q)
  }

  predicate IsExit(pt: Point) {
    || pt.ExitEnter? || pt.ExitReparent? || pt.ExitWakeInit? || pt.ExitWakeParent? || pt.ExitLock?
    || pt.ExitZombie? || pt.Exited? || pt.Dead?
  }

  ghost predicate NoneLost(s: State)
    requires Sized(s)
  {
    && Awaited(s)
    && (forall h :: 0 <= h < NPROC ==> HolderOk(s, h))
    && !IsExit(Core(s.pc[s.init]))
  }

  ghost predicate Inv(s: State) {
    Sized(s) && Locks(s) && Placed(s) && Forking(s) && NoneLost(s)
  }

  // --- The shapes of steps ---

  /** Processor c runs process p. */
  predicate Runs(s: State, c: nat, p: nat) {
    Sized(s) && c < NCPU && p < NPROC && s.cpus[c] == Cpu(Some(p), InProc)
  }

  /** Locks taken and released by a move of process p to point pt. */
  ghost predicate LockEffect(s: State, t: State, c: nat, p: nat, pt: Point)
    requires Runs(s, c, p) && Sized(t)
  {
    && (forall k :: 0 <= k < NPROC ==>
          if HoldsLockAt(pt, p, k) == HoldsLockAt(s.pc[p], p, k) then t.lock[k] == s.lock[k]
          else if HoldsLockAt(pt, p, k) then s.lock[k] == None && t.lock[k] == Some(c)
          else t.lock[k] == None)
    && (if HoldsWaitAt(pt) == HoldsWaitAt(s.pc[p]) then t.wait == s.wait
        else if HoldsWaitAt(pt) then s.wait == None && t.wait == Some(c)
        else t.wait == None)
  }

  /** Process p moves to point pt; at most the record of process j changes. */
  ghost predicate Local(s: State, t: State, c: nat, p: nat, pt: Point, j: nat, x: Proc) {
    && Runs(s, c, p) && Sized(t) && j < NPROC
    && t.cpus == s.cpus && t.on == s.on && t.init == s.init
    && t.pc[p] == pt && (forall q :: 0 <= q < NPROC && q != p ==> t.pc[q] == s.pc[q])
    && t.procs[j] == x && (forall q :: 0 <= q < NPROC && q != j ==> t.procs[q] == s.procs[q])
    && LockEffect(s, t, c, p, pt)
  }

  /** A move of process p does not change what other processors hold. */
  lemma OthersKeep(s: State, t: State, c: nat, p: nat, pt: Point, j: nat, x: Proc, d: nat, k: nat)
    requires Sized(s) && Placed(s) && Local(s, t, c, p, pt, j, x) && d < NCPU && d != c
    ensures HoldsWait(t, d) == HoldsWait(s, d)
    ensures HoldsLock(t, d, k) == HoldsLock(s, d, k)
  {
    assert s.on[p] == Some(c);
    assert s.cpus[d].proc != Some(p);
  }

  lemma LocalLocks(s: State, t: State, c: nat, p: nat, pt: Point, j: nat, x: Proc)
    requires Inv(s) && Local(s, t, c, p, pt, j, x)
    ensures Locks(t)
  {
    forall d | 0 <= d < NCPU ensures t.wait == Some(d) <==> HoldsWait(t, d) {
      assert s.wait == Some(d) <==> HoldsWait(s, d);
      if d != c { OthersKeep(s, t, c, p, pt, j, x, d, 0); }
    }
    forall d, k | 0 <= d < NCPU && 0 <= k < NPROC ensures t.lock[k] == Some(d) <==> HoldsLock(t, d, k) {
      assert s.lock[k] == Some(d) <==> HoldsLock(s, d, k);
      assert s.lock[k] == Some(c) <==> HoldsLock(s, c, k);
      if d != c { OthersKeep(s, t, c, p, pt, j, x, d, k); }
    }
  }

  /** A process that is not running, and whose lock is not its own processor's, is off. */
  lemma OffCpu(s: State, j: nat, c: nat, p: nat)
    requires Inv(s) && Runs(s, c, p) && j < NPROC && j != p && s.procs[j].state != RUNNING
    ensures s.lock[j] == None || s.lock[j] == Some(c) ==> s.on[j] == None
  {
    if s.on[j].Some? {
      var d := s.on[j].value;
      assert s.cpus[d].proc == Some(j);
      assert HoldsLock(s, d, j);
    }
  }

  lemma LocalPlaced(s: State, t: State, c: nat, p: nat, pt: Point, j: nat, x: Proc)
    requires Inv(s) && Local(s, t, c, p, pt, j, x)
    requires PcFits(t.procs[p], pt) && PcFits(x, t.pc[j])
    requires t.procs[p].state == RUNNING || pt == Exited
    requires j != p ==> x.state == s.procs[j].state || (s.on[j] == None && x.state != RUNNING)
    ensures Placed(t)
  {
    assert s.on[p] == Some(c);
  }

  lemma LocalForking(s: State, t: State, c: nat, p: nat, pt: Point, j: nat, x: Proc)
    requires Inv(s) && Local(s, t, c, p, pt, j, x)
    requires IsFork(Core(pt)) ==>
      || (IsFork(Core(s.pc[p])) && Core(pt).np == Core(s.pc[p]).np)
      || (Core(pt).np == j && s.procs[j].state == UNUSED && x.state == USED)
    requires s.procs[j].state == USED && x.state != USED ==>
      IsFork(Core(s.pc[p])) && Core(s.pc[p]).np == j && !IsFork(Core(pt))
    ensures Forking(t)
  {
  }

  /** wait_lock is held by at most one process. */
  lemma WaitExclusive(s: State, p: nat, q: nat)
    requires Inv(s) && p < NPROC && q < NPROC && HoldsWaitAt(s.pc[p]) && HoldsWaitAt(s.pc[q])
    ensures p == q && s.wait.Some?
  {
    assert PcFits(s.procs[p], s.pc[p]) && PcFits(s.procs[q], s.pc[q]);
    var c, d := s.on[p].value, s.on[q].value;
    assert s.cpus[c].proc == Some(p) && s.cpus[d].proc == Some(q);
    assert HoldsWait(s, c) && HoldsWait(s, d);
  }

  /** No new waiter, no new zombie child. */
  ghost predicate Calmer(s: State, t: State)
    requires Sized(s) && Sized(t)
  {
    && (forall p :: 0 <= p < NPROC && Waiter(t, p) ==> Waiter(s, p))
    && (forall p, q :: 0 <= p < NPROC && 0 <= q < NPROC && ZombieChild(t, q, p) ==> ZombieChild(s, q, p))
  }

  /** Guarantees of a holder of wait_lock survive a calmer step of anyone else. */
  lemma HolderKeeps(s: State, t: State, h: nat)
    requires Inv(s) && Sized(t) && h < NPROC && Calmer(s, t)
    requires t.pc[h] == s.pc[h] && t.init == s.init && t.procs[h].parent == s.procs[h].parent
    ensures HolderOk(t, h)
  {
    assert HolderOk(s, h);
  }

  lemma LocalHolders(s: State, t: State, c: nat, p: nat, pt: Point, j: nat, x: Proc)
    requires Inv(s) && Local(s, t, c, p, pt, j, x) && HolderOk(t, p)
    requires HoldsWaitAt(s.pc[p]) || (Calmer(s, t) && (x.parent == s.procs[j].parent || !HoldsWaitAt(s.pc[j])))
    ensures forall h :: 0 <= h < NPROC ==> HolderOk(t, h)
  {
    forall h | 0 <= h < NPROC ensures HolderOk(t, h) {
      if h != p && HoldsWaitAt(s.pc[h]) {
        if HoldsWaitAt(s.pc[p]) { WaitExclusive(s, p, h); }
        HolderKeeps(s, t, h);
      }
    }
  }

  lemma LocalAwaited(s: State, t: State, c: nat, p: nat, pt: Point, j: nat, x: Proc)
    requires Inv(s) && Local(s, t, c, p, pt, j, x) && Calmer(s, t)
    requires !s.pc[p].ExitWakeInit? || (pt.ExitWakeInit? && pt.k == s.pc[p].k && pt.j <= s.init) || !Waiter(t, s.init)
    ensures Awaited(t)
  {
    forall p', q | 0 <= p' < NPROC && 0 <= q < NPROC && Waiter(t, p') && ZombieChild(t, q, p')
      ensures p' == t.init && exists y :: 0 <= y < NPROC && HandsOver(t, y, q)
    {
      var y :| 0 <= y < NPROC && HandsOver(s, y, q);
      assert HandsOver(t, y, q);
    }
  }

  /** What a move of process p must respect, apart from the order of wakeups. */
  ghost predicate Fits(s: State, t: State, c: nat, p: nat, pt: Point, j: nat, x: Proc)
    requires Local(s, t, c, p, pt, j, x)
  {
    && PcFits(t.procs[p], pt) && PcFits(x, t.pc[j])
    && (t.procs[p].state == RUNNING || pt == Exited)
    && (j != p ==> x.state == s.procs[j].state || (s.on[j] == None && x.state != RUNNING))
    && (IsFork(Core(pt)) ==>
          || (IsFork(Core(s.pc[p])) && Core(pt).np == Core(s.pc[p]).np)
          || (Core(pt).np == j && s.procs[j].state == UNUSED && x.state == USED))
    && (s.procs[j].state == USED && x.state != USED ==>
          IsFork(Core(s.pc[p])) && Core(s.pc[p]).np == j && !IsFork(Core(pt)))
    && HolderOk(t, p)
    && (p == s.init ==> !IsExit(Core(pt)))
  }

  lemma LocalInv(s: State, t: State, c: nat, p: nat, pt: Point, j: nat, x: Proc)
    requires Inv(s) && Local(s, t, c, p, pt, j, x) && Fits(s, t, c, p, pt, j, x)
    requires HoldsWaitAt(s.pc[p]) || (Calmer(s, t) && (x.parent == s.procs[j].parent || !HoldsWaitAt(s.pc[j])))
    requires Awaited(t)
    ensures Inv(t)
  {
    LocalLocks(s, t, c, p, pt, j, x);
    LocalPlaced(s, t, c, p, pt, j, x);
    LocalForking(s, t, c, p, pt, j, x);
    LocalHolders(s, t, c, p, pt, j, x);
  }

  lemma CalmInv(s: State, t: State, c: nat, p: nat, pt: Point, j: nat, x: Proc)
    requires Inv(s) && Local(s, t, c, p, pt, j, x) && Fits(s, t, c, p, pt, j, x) && Calmer(s, t)
    requires HoldsWaitAt(s.pc[p]) || x.parent == s.procs[j].parent || !HoldsWaitAt(s.pc[j])
    requires !s.pc[p].ExitWakeInit? || (pt.ExitWakeInit? && pt.k == s.pc[p].k && pt.j <= s.init) || !Waiter(t, s.init)
    ensures Inv(t)
  {
    LocalAwaited(s, t, c, p, pt, j, x);
    LocalInv(s, t, c, p, pt, j, x);
  }

  // --- wait ---

  lemma ChangeCalms(s: State, t: State, c: nat, p: nat, pt: Point, j: nat, x: Proc)
    requires Local(s, t, c, p, pt, j, x) && !pt.WaitDoze?
    requires x.state == SLEEPING && x.chan == ProcChan(j) ==> s.procs[j].state == SLEEPING && s.procs[j].chan == x.chan
    requires x.state == ZOMBIE ==> s.procs[j].state == ZOMBIE && s.procs[j].parent == x.parent
    ensures Calmer(s, t)
  {
  }

  /** A move that changes no record and does not enter WaitDoze. */
  lemma MoveInv(s: State, t: State, c: nat, p: nat, pt: Point)
    requires Inv(s) && p < NPROC && Local(s, t, c, p, pt, p, s.procs[p])
    requires !pt.WaitDoze? && !pt.Exited? && !pt.Dead? && !s.pc[p].Exited? && HolderOk(t, p)
    requires !pt.Slept? && !pt.Yielded? && (p == s.init ==> !IsExit(Core(pt)))
    requires IsFork(pt) ==> IsFork(Core(s.pc[p])) && pt.np == Core(s.pc[p]).np
    requires !s.pc[p].ExitWakeInit? || (pt.ExitWakeInit? && pt.k == s.pc[p].k && pt.j <= s.init) || !Waiter(t, s.init)
    ensures Inv(t)
  {
    assert PcFits(s.procs[p], s.pc[p]);
    ChangeCalms(s, t, c, p, pt, p, s.procs[p]);
    CalmInv(s, t, c, p, pt, p, s.procs[p]);
  }

  /** The record that a step of wait changes: the collected child's. */
  function WaitTarget(s: State, p: nat): nat
    requires Sized(s) && p < NPROC
  {
    if s.pc[p].WaitChild? && s.pc[p].k < NPROC then s.pc[p].k else p
  }

  lemma WaitLocal(s: State, c: nat, p: nat, act: Action)
    requires Runs(s, c, p) && IsWait(s.pc[p]) && StepWait(s, c, p, act).Some?
    requires !s.pc[p].WaitDoze? && !(s.pc[p].WaitEnter? && act.Yield?)
    ensures var t, j := StepWait(s, c, p, act).value, WaitTarget(s, p);
      Local(s, t, c, p, t.pc[p], j, t.procs[j])
  {
  }

  /** The scan passes a process only if it is not a child, or not a zombie. */
  lemma ScanHolder(s: State, c: nat, p: nat, act: Action)
    requires Runs(s, c, p) && HolderOk(s, p) && StepWait(s, c, p, act).Some?
    requires (s.pc[p].WaitEnter? && !act.Yield?) || s.pc[p].WaitScan? || s.pc[p].WaitTired?
    ensures var t := StepWait(s, c, p, act).value;
      Sized(t) && t.procs == s.procs && HolderOk(t, p) && t.init == s.init && IsWaitOrUser(t.pc[p])
  {
    var t := StepWait(s, c, p, act).value;
    forall q | 0 <= q < NPROC ensures ZombieChild(t, q, p) == ZombieChild(s, q, p) {}
  }

  predicate IsWaitOrUser(pt: Point) {
    pt.User? || (IsWait(pt) && !pt.WaitDoze?)
  }

  lemma WaitScanInv(s: State, c: nat, p: nat, act: Action)
    requires Inv(s) && Runs(s, c, p) && StepWait(s, c, p, act).Some?
    requires (s.pc[p].WaitEnter? && !act.Yield?) || s.pc[p].WaitScan? || s.pc[p].WaitTired?
    ensures Inv(StepWait(s, c, p, act).value)
  {
    assert HolderOk(s, p);
    WaitLocal(s, c, p, act);
    ScanHolder(s, c, p, act);
    var t := StepWait(s, c, p, act).value;
    MoveInv(s, t, c, p, t.pc[p]);
  }

  lemma WaitChildInv(s: State, c: nat, p: nat, act: Action)
    requires Inv(s) && Runs(s, c, p) && StepWait(s, c, p, act).Some? && s.pc[p].WaitChild?
    ensures Inv(StepWait(s, c, p, act).value)
  {
    var t := StepWait(s, c, p, act).value;
    var k := s.pc[p].k;
    WaitLocal(s, c, p, act);
    assert HolderOk(s, p);
    if s.procs[k].state == ZOMBIE && !act.Fail? {
      CollectInv(s, t, c, p, k);
    } else {
      assert t.procs == s.procs;
      forall q | 0 <= q < NPROC ensures ZombieChild(t, q, p) == ZombieChild(s, q, p) {}
      MoveInv(s, t, c, p, t.pc[p]);
    }
  }

  /** wait frees the record of a zombie child. */
  lemma CollectInv(s: State, t: State, c: nat, p: nat, k: nat)
    requires Inv(s) && p < NPROC && k < NPROC && s.pc[p] == WaitChild(k) && s.procs[k].state == ZOMBIE
    requires Local(s, t, c, p, User, k, FreeProc(s.procs[k]))
    ensures Inv(t)
  {
    assert PcFits(s.procs[p], s.pc[p]) && PcFits(s.procs[k], s.pc[k]);
    assert HoldsLock(s, c, k);
    OffCpu(s, k, c, p);
    CalmInv(s, t, c, p, User, k, FreeProc(s.procs[k]));
  }

  lemma WaitSleepAwaited(s: State, t: State, p: nat)
    requires Inv(s) && Sized(t) && p < NPROC && s.pc[p].WaitSleep?
    requires t.procs == s.procs && t.pc == s.pc[p := WaitDoze] && t.init == s.init
    ensures Awaited(t)
  {
    assert forall q :: 0 <= q < NPROC ==> !ZombieChild(t, q, p) by {
      assert HolderOk(s, p);
      forall q | 0 <= q < NPROC ensures ZombieChild(t, q, p) == ZombieChild(s, q, p) {}
    }
    forall p', q | 0 <= p' < NPROC && 0 <= q < NPROC && p' != p && Waiter(t, p') && ZombieChild(t, q, p')
      ensures p' == t.init && exists y :: 0 <= y < NPROC && HandsOver(t, y, q)
    {
      assert Waiter(s, p') && ZombieChild(s, q, p');
      var y :| 0 <= y < NPROC && HandsOver(s, y, q);
      assert HandsOver(t, y, q);
    }
  }

  /** Releasing wait_lock inside sleep: the scan has found no zombie child. */
  lemma WaitSleepInv(s: State, c: nat, p: nat, act: Action)
    requires Inv(s) && Runs(s, c, p) && s.pc[p].WaitSleep?
    ensures StepWait(s, c, p, act).Some? && Inv(StepWait(s, c, p, act).value)
  {
    var t := StepWait(s, c, p, act).value;
    WaitLocal(s, c, p, act);
    assert PcFits(s.procs[p], s.pc[p]);
    WaitSleepAwaited(s, t, p);
    LocalInv(s, t, c, p, t.pc[p], p, s.procs[p]);
  }

  // --- exit ---

  /** The record that a step of exit changes. */
  function ExitTarget(s: State, p: nat): nat
    requires Sized(s) && p < NPROC
  {
    match s.pc[p]
    case ExitReparent(k) => if k < NPROC then k else p
    case ExitWakeInit(_, j) => if j < NPROC then j else p
    case ExitWakeParent(j) => if j < NPROC then j else p
    case _ => p
  }

  lemma ExitWakeLocal(s: State, c: nat, p: nat, act: Action)
    requires Runs(s, c, p) && (s.pc[p].ExitWakeInit? || s.pc[p].ExitWakeParent?) && StepExit(s, c, p, act).Some?
    ensures var t, j := StepExit(s, c, p, act).value, ExitTarget(s, p);
      Local(s, t, c, p, t.pc[p], j, t.procs[j])
  {
  }

  lemma ExitLocal(s: State, c: nat, p: nat, act: Action)
    requires Runs(s, c, p) && IsExit(s.pc[p]) && StepExit(s, c, p, act).Some?
    requires !s.pc[p].Exited? && !(s.pc[p].ExitEnter? && act.Yield?)
    ensures var t, j := StepExit(s, c, p, act).value, ExitTarget(s, p);
      Local(s, t, c, p, t.pc[p], j, t.procs[j])
  {
    if s.pc[p].ExitWakeInit? || s.pc[p].ExitWakeParent? {
      ExitWakeLocal(s, c, p, act);
    }
  }

  /** While wait_lock is held outside wakeup(initproc), no waiter has a zombie child. */
  lemma NoneWhileHeld(s: State, h: nat)
    requires Inv(s) && h < NPROC && HoldsWaitAt(s.pc[h]) && !s.pc[h].ExitWakeInit?
    ensures forall p, q :: 0 <= p < NPROC && 0 <= q < NPROC && ZombieChild(s, q, p) ==> !Waiter(s, p)
  {
    forall p, q | 0 <= p < NPROC && 0 <= q < NPROC && ZombieChild(s, q, p) ensures !Waiter(s, p) {
      if Waiter(s, p) {
        var x :| 0 <= x < NPROC && HandsOver(s, x, q);
        WaitExclusive(s, h, x);
      }
    }
  }

  /** Points of exit whose step changes no record. */
  predicate ExitMoves(s: State, p: nat, act: Action)
    requires Sized(s) && p < NPROC
  {
    match s.pc[p]
    case ExitEnter => !act.Yield?
    case ExitReparent(k) => k >= NPROC || s.procs[k].parent != Some(p)
    case ExitWakeInit(_, j) => j >= NPROC || j == p
    case ExitWakeParent(j) => j >= NPROC || j == p
    case ExitLock => true
    case _ => false
  }

  lemma ExitHolder(s: State, c: nat, p: nat, act: Action)
    requires Runs(s, c, p) && HolderOk(s, p) && p != s.init && s.procs[p].state == RUNNING
    requires ExitMoves(s, p, act) && StepExit(s, c, p, act).Some?
    ensures var t, pt := StepExit(s, c, p, act).value, StepExit(s, c, p, act).value.pc[p];
      && Sized(t) && t.procs == s.procs && t.init == s.init && HolderOk(t, p)
      && IsExit(pt) && !pt.Exited? && !pt.Dead?
      && (!s.pc[p].ExitWakeInit? || (pt.ExitWakeInit? && pt.k == s.pc[p].k && pt.j <= s.init) || !Waiter(t, s.init))
  {
    var t := StepExit(s, c, p, act).value;
    forall q | 0 <= q < NPROC ensures Waiter(t, q) == Waiter(s, q) {}
  }

  lemma ExitMoveInv(s: State, c: nat, p: nat, act: Action)
    requires Inv(s) && Runs(s, c, p) && ExitMoves(s, p, act) && StepExit(s, c, p, act).Some?
    ensures Inv(StepExit(s, c, p, act).value)
  {
    var t := StepExit(s, c, p, act).value;
    assert PcFits(s.procs[p], s.pc[p]) && HolderOk(s, p) && p != s.init;
    ExitLocal(s, c, p, act);
    ExitHolder(s, c, p, act);
    MoveInv(s, t, c, p, t.pc[p]);
  }

  /** Giving a child to init: if it is a zombie, the wakeup of init is on the way. */
  lemma ReparentInv(s: State, c: nat, p: nat, act: Action)
    requires Inv(s) && Runs(s, c, p) && s.pc[p].ExitReparent? && s.pc[p].k < NPROC
    requires s.procs[s.pc[p].k].parent == Some(p)
    ensures StepExit(s, c, p, act).Some? && Inv(StepExit(s, c, p, act).value)
  {
    var t := StepExit(s, c, p, act).value;
    var k := s.pc[p].k;
    ExitLocal(s, c, p, act);
    assert PcFits(s.procs[p], s.pc[p]) && PcFits(s.procs[k], s.pc[k]);
    ReparentAwaited(s, c, p, act);
    LocalInv(s, t, c, p, t.pc[p], k, t.procs[k]);
  }

  lemma ReparentAwaited(s: State, c: nat, p: nat, act: Action)
    requires Inv(s) && Runs(s, c, p) && s.pc[p].ExitReparent? && s.pc[p].k < NPROC
    requires s.procs[s.pc[p].k].parent == Some(p)
    ensures StepExit(s, c, p, act).Some? && Awaited(StepExit(s, c, p, act).value)
  {
    var t := StepExit(s, c, p, act).value;
    var k := s.pc[p].k;
    NoneWhileHeld(s, p);
    forall p', q | 0 <= p' < NPROC && 0 <= q < NPROC && Waiter(t, p') && ZombieChild(t, q, p')
      ensures p' == t.init && exists y :: 0 <= y < NPROC && HandsOver(t, y, q)
    {
      assert Waiter(s, p');
      assert q != k ==> ZombieChild(s, q, p');
      assert HandsOver(t, p, k);
    }
  }

  /** A process whose lock is free is not between release(lk) and sched() in sleep. */
  lemma NotDozing(s: State, j: nat)
    requires Inv(s) && j < NPROC
    ensures s.pc[j] == WaitDoze ==> s.lock[j] != None
  {
    if s.pc[j] == WaitDoze {
      assert PcFits(s.procs[j], s.pc[j]);
      var d := s.on[j].value;
      assert s.cpus[d].proc == Some(j);
      assert HoldsLock(s, d, j);
    }
  }

  lemma WakeCalms(s: State, t: State, j: nat, chan: Chan)
    requires Sized(s) && Sized(t) && j < NPROC && t.procs == Wake(s, j, chan).procs
    requires forall q :: 0 <= q < NPROC && t.pc[q].WaitDoze? ==> s.pc[q].WaitDoze?
    ensures Calmer(s, t)
  {
  }

  lemma ExitWakeHolder(s: State, c: nat, p: nat, act: Action)
    requires Runs(s, c, p) && HolderOk(s, p) && (s.pc[p].ExitWakeInit? || s.pc[p].ExitWakeParent?)
    requires s.pc[p].j < NPROC && s.pc[p].j != p && s.lock[s.pc[p].j] == None && s.pc[s.pc[p].j] != WaitDoze
    ensures StepExit(s, c, p, act).Some?
    ensures var t, j := StepExit(s, c, p, act).value, s.pc[p].j;
      && Sized(t) && HolderOk(t, p) && Calmer(s, t) && t.init == s.init
      && t.pc[p] == (if s.pc[p].ExitWakeInit? then ExitWakeInit(s.pc[p].k, j + 1) else ExitWakeParent(j + 1))
      && (t.procs[j] == s.procs[j] || (s.procs[j].state == SLEEPING && t.procs[j] == s.procs[j].(state := RUNNABLE)))
  {
    var t := StepExit(s, c, p, act).value;
    WakeCalms(s, t, s.pc[p].j, if s.pc[p].ExitWakeInit? then ProcChan(s.init) else ParentChan(s, p));
  }

  /** What the step of wakeup() in exit leaves of process j. */
  lemma ExitWakeFits(s: State, t: State, c: nat, p: nat, j: nat)
    requires Sized(s) && Sized(t) && p < NPROC && j < NPROC
    requires Local(s, t, c, p, t.pc[p], j, t.procs[j]) && j != p && HolderOk(t, p) && p != s.init
    requires IsExit(s.pc[p]) && s.procs[p].state == RUNNING && PcFits(s.procs[p], s.pc[p]) &&
      PcFits(s.procs[j], s.pc[j])
    requires t.pc[p].ExitWakeInit? || t.pc[p].ExitWakeParent?
    requires t.procs[j] == s.procs[j] || (s.procs[j].state == SLEEPING && t.procs[j] == s.procs[j].(state := RUNNABLE))
    requires s.procs[j].state == SLEEPING ==> s.on[j] == None
    ensures Fits(s, t, c, p, t.pc[p], j, t.procs[j])
  {
  }

  lemma ExitWakeInv(s: State, c: nat, p: nat, act: Action)
    requires Inv(s) && Runs(s, c, p) && (s.pc[p].ExitWakeInit? || s.pc[p].ExitWakeParent?)
    requires s.pc[p].j < NPROC && s.pc[p].j != p && s.lock[s.pc[p].j] == None
    ensures StepExit(s, c, p, act).Some? && Inv(StepExit(s, c, p, act).value)
  {
    var j := s.pc[p].j;
    assert s.pc[j] != WaitDoze by { NotDozing(s, j); }
    assert HolderOk(s, p);
    ExitWakeHolder(s, c, p, act);
    var t := StepExit(s, c, p, act).value;
    assert Local(s, t, c, p, t.pc[p], j, t.procs[j]) by { ExitLocal(s, c, p, act); }
    assert PcFits(s.procs[p], s.pc[p]) && PcFits(s.procs[j], s.pc[j]);
    assert s.procs[j].state == SLEEPING ==> s.on[j] == None by {
      if s.procs[j].state == SLEEPING { OffCpu(s, j, c, p); }
    }
    ExitWakeFits(s, t, c, p, j);
    CalmInv(s, t, c, p, t.pc[p], j, t.procs[j]);
  }

  /** Becoming a zombie: the parent was woken and has not gone back to sleep. */
  lemma ExitZombieInv(s: State, c: nat, p: nat, act: Action)
    requires Inv(s) && Runs(s, c, p) && s.pc[p].ExitZombie?
    ensures StepExit(s, c, p, act).Some? && Inv(StepExit(s, c, p, act).value)
  {
    var t := StepExit(s, c, p, act).value;
    ExitLocal(s, c, p, act);
    assert PcFits(s.procs[p], s.pc[p]);
    assert p != s.init;
    assert Awaited(t) by {
      NoneWhileHeld(s, p);
      assert HolderOk(s, p);
      forall p', q | 0 <= p' < NPROC && 0 <= q < NPROC && ZombieChild(t, q, p') ensures !Waiter(t, p') {
        assert q != p ==> ZombieChild(s, q, p');
        assert !Waiter(s, p');
      }
    }
    LocalInv(s, t, c, p, t.pc[p], p, t.procs[p]);
  }

  // --- fork ---

  lemma ForkMoveLocal(s: State, c: nat, p: nat, act: Action)
    requires Runs(s, c, p) && StepFork(s, c, p, act).Some?
    requires (s.pc[p].ForkAlloc? && !act.Fail?) || (s.pc[p].ForkParent? && !act.Yield?)
    ensures var t := StepFork(s, c, p, act).value;
      && Local(s, t, c, p, t.pc[p], p, s.procs[p])
      && (t.pc[p].ForkParent? || t.pc[p].ForkLink?) && t.pc[p].np == s.pc[p].np
  {
  }

  lemma ForkChangeLocal(s: State, c: nat, p: nat, act: Action)
    requires Runs(s, c, p) && StepFork(s, c, p, act).Some?
    requires (s.pc[p].ForkAlloc? && act.Fail?) || s.pc[p].ForkLink? || (s.pc[p].ForkRun? && !act.Yield?)
    ensures var t, np := StepFork(s, c, p, act).value, s.pc[p].np;
      && np < NPROC && Local(s, t, c, p, t.pc[p], np, t.procs[np])
      && t.procs[np].priority == s.procs[np].priority
      && (s.pc[p].ForkAlloc? ==> t.pc[p] == User && t.procs[np].state == UNUSED)
      && (s.pc[p].ForkLink? ==> t.pc[p] == ForkRun(np) && t.procs[np].state == s.procs[np].state)
      && (s.pc[p].ForkRun? ==> t.pc[p] == User && t.procs[np].state == RUNNABLE && s.lock[np] == None)
  {
  }

  /** Steps of fork that change the child's record: give up, set the parent, make runnable. */
  lemma ForkFits(s: State, t: State, c: nat, p: nat, pt: Point, np: nat, x: Proc)
    requires Sized(s) && Sized(t) && p < NPROC && np < NPROC && np != p && Local(s, t, c, p, pt, np, x)
    requires IsFork(s.pc[p]) && s.pc[p].np == np && (pt.User? || pt == ForkRun(np))
    requires PcFits(s.procs[p], s.pc[p]) && PcFits(s.procs[np], s.pc[np]) && s.procs[p].state == RUNNING
    requires s.procs[np].state == USED && x.state in {UNUSED, USED, RUNNABLE} && (x.state != USED ==> pt.User?)
    requires x.priority == s.procs[np].priority && (x.state != USED ==> s.on[np] == None)
    ensures Fits(s, t, c, p, pt, np, x)
  {
  }

  lemma ForkChangeInv(s: State, t: State, c: nat, p: nat, pt: Point, np: nat, x: Proc)
    requires Inv(s) && p < NPROC && IsFork(s.pc[p]) && s.pc[p].np == np
    requires np < NPROC && Local(s, t, c, p, pt, np, x) && (pt.User? || pt == ForkRun(np))
    requires s.lock[np] == None || s.lock[np] == Some(c) || x.state == USED
    requires x.state in {UNUSED, USED, RUNNABLE} && (x.state != USED ==> pt.User?) && x.priority == s.procs[np].priority
    ensures Inv(t)
  {
    assert PcFits(s.procs[p], s.pc[p]) && PcFits(s.procs[np], s.pc[np]);
    assert s.procs[np].state == USED && np != p;
    assert x.state != USED ==> s.on[np] == None by {
      if x.state != USED { OffCpu(s, np, c, p); }
    }
    assert Calmer(s, t) by { ChangeCalms(s, t, c, p, pt, np, x); }
    ForkFits(s, t, c, p, pt, np, x);
    CalmInv(s, t, c, p, pt, np, x);
  }

  lemma ForkInv(s: State, c: nat, p: nat, act: Action)
    requires Inv(s) && Runs(s, c, p) && IsFork(s.pc[p]) && StepFork(s, c, p, act).Some?
    requires !((s.pc[p].ForkParent? || s.pc[p].ForkRun?) && act.Yield?)
    ensures Inv(StepFork(s, c, p, act).value)
  {
    var t := StepFork(s, c, p, act).value;
    var np := s.pc[p].np;
    assert np < NPROC && s.procs[np].state == USED;
    if (s.pc[p].ForkAlloc? && !act.Fail?) || s.pc[p].ForkParent? {
      ForkMoveLocal(s, c, p, act);
      MoveInv(s, t, c, p, t.pc[p]);
    } else {
      if s.pc[p].ForkAlloc? { assert HoldsLock(s, c, np); }
      ForkChangeLocal(s, c, p, act);
      ForkChangeInv(s, t, c, p, t.pc[p], np, t.procs[np]);
    }
  }

  // The saved context of an unused process does not matter.

  ghost predicate NewContext(s: State, t: State, np: nat) {
    && Sized(s) && Sized(t) && np < NPROC && s.procs[np].state == UNUSED
    && t.procs == s.procs && t.lock == s.lock && t.wait == s.wait && t.cpus == s.cpus
    && t.on == s.on && t.init == s.init
    && t.pc[np] == Yielded(User) && (forall q :: 0 <= q < NPROC && q != np ==> t.pc[q] == s.pc[q])
  }

  lemma NewContextPlaced(s: State, t: State, np: nat)
    requires NewContext(s, t, np) && Placed(s)
    ensures s.on[np] == None && Placed(t)
  {
    assert PcFits(s.procs[np], s.pc[np]);
  }

  lemma NewContextLocks(s: State, t: State, np: nat)
    requires NewContext(s, t, np) && Placed(s) && Locks(s)
    ensures Locks(t)
  {
    NewContextPlaced(s, t, np);
    forall c, k | 0 <= c < NCPU && 0 <= k < NPROC
      ensures HoldsWait(t, c) == HoldsWait(s, c) && HoldsLock(t, c, k) == HoldsLock(s, c, k)
    {
    }
    forall c | 0 <= c < NCPU ensures t.wait == Some(c) <==> HoldsWait(t, c) {
      assert HoldsLock(t, c, 0) == HoldsLock(s, c, 0);
    }
  }

  lemma NewContextNoneLost(s: State, t: State, np: nat)
    requires Inv(s) && NewContext(s, t, np)
    ensures NoneLost(t)
  {
    assert PcFits(s.procs[np], s.pc[np]);
    forall p, q | 0 <= p < NPROC && 0 <= q < NPROC && Waiter(t, p) && ZombieChild(t, q, p)
      ensures p == t.init && exists x :: 0 <= x < NPROC && HandsOver(t, x, q)
    {
      assert Waiter(s, p) && ZombieChild(s, q, p);
      var x :| 0 <= x < NPROC && HandsOver(s, x, q);
      assert HandsOver(t, x, q);
    }
    forall h | 0 <= h < NPROC ensures HolderOk(t, h) {
      if h != np { HolderKeeps(s, t, h); }
    }
  }

  lemma NewContextInv(s: State, t: State, np: nat)
    requires Inv(s) && NewContext(s, t, np)
    ensures s.on[np] == None && Inv(t)
  {
    NewContextPlaced(s, t, np);
    NewContextLocks(s, t, np);
    NewContextNoneLost(s, t, np);
  }

  lemma CallForkLocal(s: State, c: nat, p: nat, np: nat)
    requires Runs(s, c, p) && s.pc[p].User? && s.procs[p].state == RUNNING && StepUser(s, c, p, CallFork(np)).Some?
    ensures np != p && NewContext(s, s.(pc := s.pc[np := Yielded(User)]), np)
    ensures var t := StepUser(s, c, p, CallFork(np)).value;
      Local(s.(pc := s.pc[np := Yielded(User)]), t, c, p, ForkAlloc(np), np,
        s.procs[np].(state := USED, priority := 10))
  {
  }

  lemma CallForkInv(s: State, c: nat, p: nat, np: nat)
    requires Inv(s) && Runs(s, c, p) && s.pc[p].User? && StepUser(s, c, p, CallFork(np)).Some?
    ensures Inv(StepUser(s, c, p, CallFork(np)).value)
  {
    var u := s.(pc := s.pc[np := Yielded(User)]);
    var t := StepUser(s, c, p, CallFork(np)).value;
    assert PcFits(s.procs[p], s.pc[p]);
    CallForkLocal(s, c, p, np);
    NewContextInv(s, u, np);
    ForkedInv(u, t, c, p, np, s.procs[np].(state := USED, priority := 10));
  }

  lemma ForkedInv(s: State, t: State, c: nat, p: nat, np: nat, x: Proc)
    requires Inv(s) && np < NPROC && p < NPROC && np != p && s.on[np] == None && s.procs[np].state == UNUSED
    requires s.pc[p].User? && s.pc[np] == Yielded(User)
    requires x.state == USED && x.priority == 10 && Local(s, t, c, p, ForkAlloc(np), np, x)
    ensures Inv(t)
  {
    assert PcFits(s.procs[p], s.pc[p]);
    ChangeCalms(s, t, c, p, ForkAlloc(np), np, x);
    CalmInv(s, t, c, p, ForkAlloc(np), np, x);
  }

  // --- Other code of a process ---

  lemma UserLocal(s: State, c: nat, p: nat, act: Action)
    requires Runs(s, c, p) && s.pc[p].User? && StepUser(s, c, p, act).Some?
    requires act.CallSleep? || act.CallWait? || act.CallExit?
    ensures var t := StepUser(s, c, p, act).value;
      && Local(s, t, c, p, t.pc[p], p, s.procs[p])
      && (t.pc[p].Nap? || t.pc[p].WaitEnter? || (t.pc[p].ExitEnter? && p != s.init))
  {
  }

  lemma UserInv(s: State, c: nat, p: nat, act: Action)
    requires Inv(s) && Runs(s, c, p) && s.pc[p].User? && StepUser(s, c, p, act).Some?
    requires act.CallSleep? || act.CallWait? || act.CallExit?
    ensures Inv(StepUser(s, c, p, act).value)
  {
    UserLocal(s, c, p, act);
    var t := StepUser(s, c, p, act).value;
    MoveInv(s, t, c, p, t.pc[p]);
  }

  lemma ResumeLocal(s: State, c: nat, p: nat, act: Action)
    requires Runs(s, c, p) && (s.pc[p].Slept? || s.pc[p].Yielded?) && Quiet(s.pc[p].back)
    ensures StepProc(s, c, p, act).Some?
    ensures var t := StepProc(s, c, p, act).value;
      Local(s, t, c, p, s.pc[p].back, p, if s.pc[p].Slept? then s.procs[p].(chan := NoChan) else s.procs[p])
  {
  }

  /** A process that runs again clears its channel and releases its lock. */
  lemma ResumeInv(s: State, c: nat, p: nat, act: Action)
    requires Inv(s) && Runs(s, c, p) && (s.pc[p].Slept? || s.pc[p].Yielded?)
    ensures StepProc(s, c, p, act).Some? && Inv(StepProc(s, c, p, act).value)
  {
    assert PcFits(s.procs[p], s.pc[p]);
    ResumeLocal(s, c, p, act);
    var t := StepProc(s, c, p, act).value;
    var x := t.procs[p];
    ChangeCalms(s, t, c, p, s.pc[p].back, p, x);
    CalmInv(s, t, c, p, s.pc[p].back, p, x);
  }

  // --- sched(): a process gives up its processor ---

  /** Process p stops at point pt with record x; the scheduler of c gets lock p. */
  ghost predicate Switched(s: State, t: State, c: nat, p: nat, pt: Point, x: Proc) {
    && Runs(s, c, p) && Sized(t)
    && t.on == s.on && t.init == s.init && t.wait == s.wait
    && (s.lock[p] == None || s.lock[p] == Some(c)) && t.lock == s.lock[p := Some(c)]
    && t.cpus == s.cpus[c := Cpu(Some(p), Back(p))]
    && t.pc[p] == pt && (forall q :: 0 <= q < NPROC && q != p ==> t.pc[q] == s.pc[q])
    && t.procs[p] == x && (forall q :: 0 <= q < NPROC && q != p ==> t.procs[q] == s.procs[q])
    && !HoldsWaitAt(s.pc[p]) && !s.pc[p].WaitChild? && !s.pc[p].ForkAlloc?
    && (pt.Slept? || pt.Yielded? || pt.Dead?) && PcFits(x, pt) && x.state in {SLEEPING, RUNNABLE, ZOMBIE}
    && (Core(pt) == Core(s.pc[p]) || (p != s.init && pt.Dead?) || Core(pt) in {User, WaitEnter})
    && x.parent == s.procs[p].parent
    && (x.state == SLEEPING && x.chan == ProcChan(p) ==> s.pc[p].WaitDoze?)
    && (x.state == ZOMBIE ==> s.procs[p].state == ZOMBIE)
  }

  lemma SwitchLocks(s: State, t: State, c: nat, p: nat, pt: Point, x: Proc)
    requires Inv(s) && Switched(s, t, c, p, pt, x)
    ensures Locks(t)
  {
    assert s.on[p] == Some(c);
    forall d | 0 <= d < NCPU ensures t.wait == Some(d) <==> HoldsWait(t, d) {
      assert s.wait == Some(d) <==> HoldsWait(s, d);
      assert d != c ==> s.cpus[d].proc != Some(p);
    }
    forall d, k | 0 <= d < NCPU && 0 <= k < NPROC ensures t.lock[k] == Some(d) <==> HoldsLock(t, d, k) {
      assert s.lock[k] == Some(d) <==> HoldsLock(s, d, k);
      assert d != c ==> s.cpus[d].proc != Some(p);
    }
  }

  lemma SwitchPlaced(s: State, t: State, c: nat, p: nat, pt: Point, x: Proc)
    requires Inv(s) && Switched(s, t, c, p, pt, x)
    ensures Placed(t)
  {
    SwitchCpus(s, t, c, p, pt, x);
    assert s.on[p] == Some(c);
    assert PcFits(s.procs[p], s.pc[p]);
  }

  lemma SwitchCpus(s: State, t: State, c: nat, p: nat, pt: Point, x: Proc)
    requires Sized(s) && CpusPlaced(s) && Switched(s, t, c, p, pt, x)
    ensures CpusPlaced(t)
  {
    assert s.on[p] == Some(c);
    assert forall d :: 0 <= d < NCPU && d != c ==> s.cpus[d].proc != Some(p);
  }

  lemma SwitchForking(s: State, t: State, c: nat, p: nat, pt: Point, x: Proc)
    requires Sized(s) && Forking(s) && Switched(s, t, c, p, pt, x) && s.procs[p].state != USED
    ensures Forking(t)
  {
  }

  lemma SwitchCalms(s: State, t: State, c: nat, p: nat, pt: Point, x: Proc)
    requires Switched(s, t, c, p, pt, x)
    ensures Calmer(s, t)
  {
  }

  lemma SwitchNoneLost(s: State, t: State, c: nat, p: nat, pt: Point, x: Proc)
    requires Inv(s) && Switched(s, t, c, p, pt, x)
    ensures NoneLost(t)
  {
    SwitchCalms(s, t, c, p, pt, x);
    forall p', q | 0 <= p' < NPROC && 0 <= q < NPROC && Waiter(t, p') && ZombieChild(t, q, p')
      ensures p' == t.init && exists y :: 0 <= y < NPROC && HandsOver(t, y, q)
    {
      var y :| 0 <= y < NPROC && HandsOver(s, y, q);
      assert HandsOver(t, y, q);
    }
    forall h | 0 <= h < NPROC ensures HolderOk(t, h) {
      if h != p { HolderKeeps(s, t, h); }
    }
  }

  lemma SwitchInv(s: State, t: State, c: nat, p: nat, pt: Point, x: Proc)
    requires Inv(s) && Switched(s, t, c, p, pt, x)
    ensures Inv(t)
  {
    SwitchLocks(s, t, c, p, pt, x);
    SwitchPlaced(s, t, c, p, pt, x);
    assert PcFits(s.procs[p], s.pc[p]);
    SwitchForking(s, t, c, p, pt, x);
    SwitchNoneLost(s, t, c, p, pt, x);
  }

  lemma YieldSwitched(s: State, c: nat, p: nat)
    requires Runs(s, c, p) && Quiet(s.pc[p]) && PcFits(s.procs[p], s.pc[p]) && YieldFrom(s, c, p).Some?
    ensures var t := YieldFrom(s, c, p).value; Sized(t) && Switched(s, t, c, p, Yielded(s.pc[p]), t.procs[p])
  {
  }

  lemma YieldInv(s: State, c: nat, p: nat)
    requires Inv(s) && Runs(s, c, p) && Quiet(s.pc[p]) && YieldFrom(s, c, p).Some?
    ensures Inv(YieldFrom(s, c, p).value)
  {
    assert PcFits(s.procs[p], s.pc[p]);
    YieldSwitched(s, c, p);
    var t := YieldFrom(s, c, p).value;
    SwitchInv(s, t, c, p, Yielded(s.pc[p]), t.procs[p]);
  }

  lemma SleepSwitched(s: State, c: nat, p: nat, act: Action)
    requires Runs(s, c, p) && (s.pc[p].Nap? || s.pc[p].WaitDoze? || s.pc[p].Exited?)
    requires s.lock[p] == Some(c) && PcFits(s.procs[p], s.pc[p]) &&
      (s.pc[p].Exited? ==> p != s.init && s.procs[p].state == ZOMBIE)
    ensures StepProc(s, c, p, act).Some?
    ensures var t := StepProc(s, c, p, act).value; Switched(s, t, c, p, t.pc[p], t.procs[p])
  {
    var t := StepProc(s, c, p, act).value;
    assert t.lock == s.lock[p := Some(c)];
  }

  /** sleep on any channel, and the last step of exit. */
  lemma SleepInv(s: State, c: nat, p: nat, act: Action)
    requires Inv(s) && Runs(s, c, p) && (s.pc[p].Nap? || s.pc[p].WaitDoze? || s.pc[p].Exited?)
    ensures StepProc(s, c, p, act).Some? && Inv(StepProc(s, c, p, act).value)
  {
    assert HoldsLock(s, c, p);
    assert PcFits(s.procs[p], s.pc[p]);
    SleepSwitched(s, c, p, act);
    var t := StepProc(s, c, p, act).value;
    SwitchInv(s, t, c, p, t.pc[p], t.procs[p]);
  }

  lemma ProcInv(s: State, c: nat, p: nat, act: Action)
    requires Inv(s) && Runs(s, c, p) && StepProc(s, c, p, act).Some?
    ensures Inv(StepProc(s, c, p, act).value)
  {
    var pt := s.pc[p];
    if pt.User? {
      if act.Yield? { YieldInv(s, c, p); }
      else if act.CallFork? { CallForkInv(s, c, p, act.np); }
      else { UserInv(s, c, p, act); }
    } else if pt.Slept? || pt.Yielded? {
      ResumeInv(s, c, p, act);
    } else if pt.Nap? || pt.WaitDoze? || pt.Exited? {
      SleepInv(s, c, p, act);
    } else if Quiet(pt) && act.Yield? {
      YieldInv(s, c, p);
    } else if IsWait(pt) {
      if pt.WaitSleep? { WaitSleepInv(s, c, p, act); }
      else if pt.WaitChild? { WaitChildInv(s, c, p, act); }
      else { WaitScanInv(s, c, p, act); }
    } else if IsFork(pt) {
      ForkInv(s, c, p, act);
    } else {
      if pt.ExitZombie? { ExitZombieInv(s, c, p, act); }
      else if ExitMoves(s, p, act) { ExitMoveInv(s, c, p, act); }
      else if pt.ExitReparent? { ReparentInv(s, c, p, act); }
      else { ExitWakeInv(s, c, p, act); }
    }
  }

  // --- scheduler() ---

  /** Steps of the scheduler that only move its own scan. */
  predicate Scanning(place: Place) {
    place.Pass1? || place.Pass2? || place.Wfi?
  }

  lemma ScanningInv(s: State, c: nat, place: Place)
    requires Inv(s) && c < NCPU && Scanning(s.cpus[c].at) && Scanning(place)
    ensures Inv(At(s, c, place))
  {
    var t := At(s, c, place);
    assert forall d :: 0 <= d < NCPU ==> HoldsWait(t, d) == HoldsWait(s, d);
    assert forall d, k :: 0 <= d < NCPU ==> HoldsLock(t, d, k) == HoldsLock(s, d, k);
    SameRecords(s, t);
  }

  lemma SameRecords(s: State, t: State)
    requires Inv(s) && Sized(t) && t.pc == s.pc && t.init == s.init
    requires forall j :: 0 <= j < NPROC ==> Quieter(s.procs[j], t.procs[j])
    ensures Forking(t) && NoneLost(t)
  {
    assert Calmer(s, t);
    forall p', q | 0 <= p' < NPROC && 0 <= q < NPROC && Waiter(t, p') && ZombieChild(t, q, p')
      ensures p' == t.init && exists y :: 0 <= y < NPROC && HandsOver(t, y, q)
    {
      var y :| 0 <= y < NPROC && HandsOver(s, y, q);
      assert HandsOver(t, y, q);
    }
    forall h | 0 <= h < NPROC ensures HolderOk(t, h) {
      HolderKeeps(s, t, h);
    }
  }

  /** A change of a record that makes no waiter, no zombie and touches no child being made. */
  predicate Quieter(x: Proc, y: Proc) {
    && (y.priority == x.priority || 1 <= y.priority <= 20)
    && y.parent == x.parent && y.chan == x.chan
    && (y.state == x.state || (x.state in {SLEEPING, RUNNABLE} && y.state in {RUNNABLE, RUNNING}))
  }

  /** The process has stopped: the scheduler forgets it and releases its lock. */
  lemma BackInv(s: State, c: nat)
    requires Inv(s) && c < NCPU && s.cpus[c].at.Back? && StepSched(s, c).Some?
    ensures Inv(StepSched(s, c).value)
  {
    var t, p := StepSched(s, c).value, s.cpus[c].at.p;
    assert s.on[p] == Some(c) && PcFits(s.procs[p], s.pc[p]);
    forall d | 0 <= d < NCPU ensures t.wait == Some(d) <==> HoldsWait(t, d) {
      assert s.wait == Some(d) <==> HoldsWait(s, d);
    }
    forall d, k | 0 <= d < NCPU && 0 <= k < NPROC ensures t.lock[k] == Some(d) <==> HoldsLock(t, d, k) {
      assert s.lock[k] == Some(d) <==> HoldsLock(s, d, k);
      assert s.lock[p] == Some(c) <==> HoldsLock(s, c, p);
    }
    SameRecords(s, t);
  }

  lemma DispatchLocks(s: State, c: nat, k: nat)
    requires Inv(s) && c < NCPU && k < NPROC && Scanning(s.cpus[c].at)
    requires s.lock[k] == None && s.procs[k].state == RUNNABLE
    ensures s.on[k] == None && Locks(Dispatch(s, c, k))
  {
    var t := Dispatch(s, c, k);
    assert PcFits(s.procs[k], s.pc[k]);
    if s.on[k].Some? {
      assert s.cpus[s.on[k].value].proc == Some(k);
      assert HoldsLock(s, s.on[k].value, k);
    }
    forall d | 0 <= d < NCPU ensures t.wait == Some(d) <==> HoldsWait(t, d) {
      assert s.wait == Some(d) <==> HoldsWait(s, d);
    }
    forall d, j | 0 <= d < NCPU && 0 <= j < NPROC ensures t.lock[j] == Some(d) <==> HoldsLock(t, d, j) {
      assert s.lock[j] == Some(d) <==> HoldsLock(s, d, j);
    }
  }

  lemma DispatchInv(s: State, c: nat, k: nat)
    requires Inv(s) && c < NCPU && k < NPROC && Scanning(s.cpus[c].at)
    requires s.lock[k] == None && s.procs[k].state == RUNNABLE
    ensures Inv(Dispatch(s, c, k))
  {
    DispatchLocks(s, c, k);
    var t := Dispatch(s, c, k);
    assert PcFits(s.procs[k], s.pc[k]);
    assert Placed(t);
    SameRecords(s, t);
  }

  lemma SchedInv(s: State, c: nat)
    requires Inv(s) && c < NCPU && StepSched(s, c).Some?
    ensures Inv(StepSched(s, c).value)
  {
    var at := s.cpus[c].at;
    if at.Back? {
      BackInv(s, c);
    } else if at.Pass2? && at.k < NPROC && s.procs[at.k].state == RUNNABLE && s.procs[at.k].priority == at.best {
      DispatchInv(s, c, at.k);
    } else {
      ScanningInv(s, c, StepSched(s, c).value.cpus[c].at);
    }
  }

  // --- Short sections on one process ---

  lemma TouchInv(s: State, j: nat, x: Proc)
    requires Inv(s) && j < NPROC && s.lock[j] == None
    requires Quieter(s.procs[j], x) && (x.state == s.procs[j].state || x.state == RUNNABLE)
    ensures Inv(SetProc(s, j, x))
  {
    var t := SetProc(s, j, x);
    assert PcFits(s.procs[j], s.pc[j]);
    assert forall d :: 0 <= d < NCPU ==> HoldsWait(t, d) == HoldsWait(s, d);
    assert forall d, k :: 0 <= d < NCPU ==> HoldsLock(t, d, k) == HoldsLock(s, d, k);
    SameRecords(s, t);
  }

  lemma StepInv(s: State, step: Step)
    requires Inv(s) && Do(s, step).Some?
    ensures Inv(Do(s, step).value)
  {
    match step
    case Proceed(c, act) =>
      if s.cpus[c].at.InProc? { ProcInv(s, c, s.cpus[c].proc.value, act); } else { SchedInv(s, c); }
    case WakeOther(k, j) => TouchInv(s, j, Do(s, step).value.procs[j]);
    case Kill(j) => TouchInv(s, j, Do(s, step).value.procs[j]);
    case SetPriority(j, _) => TouchInv(s, j, Do(s, step).value.procs[j]);
  }

  // --- Whole runs ---

  datatype Run = Boot(init: nat) | Then(before: Run, step: Step)

  /** After userinit: only the init process exists, and every processor is in scheduler(). */
  function Start(init: nat): State
    requires init < NPROC
  {
    State(seq(NPROC, i => Proc(if i == init then RUNNABLE else UNUSED, NoChan, false, None, 10)),
          seq(NPROC, i => if i == init then Yielded(User) else Dead),
          seq(NPROC, _ => None), None, seq(NCPU, _ => Cpu(None, Pass1(0, 21))), seq(NPROC, _ => None), init)
  }

  ghost predicate IsRun(r: Run)
    decreases r, 0
  {
    match r
    case Boot(init) => init < NPROC
    case Then(q, step) => IsRun(q) && Sized(Final(q)) && Do(Final(q), step).Some?
  }

  ghost function Final(r: Run): State
    requires IsRun(r)
    decreases r, 1
  {
    match r
    case Boot(init) => Start(init)
    case Then(q, step) => Do(Final(q), step).value
  }

  lemma StartInv(init: nat)
    requires init < NPROC
    ensures Inv(Start(init))
  {
    assert Locks(Start(init));
    assert Placed(Start(init));
  }

  lemma {:induction false} RunInv(r: Run)
    requires IsRun(r)
    ensures Inv(Final(r))
  {
    match r
    case Boot(init) => StartInv(init);
    case Then(q, step) => RunInv(q); StepInv(Final(q), step);
  }

  /**
    No exit is lost.  In every interleaving, whenever wait_lock is free, no process is
    asleep in wait while one of its children, born to it or inherited, is a zombie.
   */
  lemma NoLostExit(r: Run)
    requires IsRun(r)
    ensures var s := Final(r);
      && Sized(s)
      && (s.wait == None ==> forall p, q :: 0 <= p < NPROC && 0 <= q < NPROC && ZombieChild(s, q, p) ==>
        !(s.procs[p].state == SLEEPING && s.procs[p].chan == ProcChan(p)))
  {
    RunInv(r);
    var s := Final(r);
    forall p, q | s.wait == None && 0 <= p < NPROC && 0 <= q < NPROC && ZombieChild(s, q, p)
      ensures !(s.procs[p].state == SLEEPING && s.procs[p].chan == ProcChan(p))
    {
      if Waiter(s, p) {
        var x :| 0 <= x < NPROC && HandsOver(s, x, q);
        WaitExclusive(s, x, x);
      }
    }
  }

  /**
    In every interleaving, whenever p's lock is free, p is RUNNING exactly when it is the
    current process of a processor, and it is never current on two processors.
   */
  lemma RunningIsCurrent(r: Run)
    requires IsRun(r)
    ensures var s := Final(r);
      && Sized(s)
      && (forall p :: 0 <= p < NPROC && s.lock[p] == None ==>
            (s.procs[p].state == RUNNING <==> exists c :: 0 <= c < NCPU && s.cpus[c].proc == Some(p)))
      && (forall c, d :: 0 <= c < d < NCPU && s.cpus[c].proc.Some? ==> s.cpus[c].proc != s.cpus[d].proc)
  {
    RunInv(r);
    var s := Final(r);
    forall p | 0 <= p < NPROC && s.lock[p] == None
      ensures s.procs[p].state == RUNNING <==> exists c :: 0 <= c < NCPU && s.cpus[c].proc == Some(p)
    {
      if s.procs[p].state == RUNNING {
        assert s.cpus[s.on[p].value].proc == Some(p);
      } else {
        forall c | 0 <= c < NCPU && s.cpus[c].proc == Some(p) ensures false {
          assert HoldsLock(s, c, p);
        }
      }
    }
  }

  /**
    sched()'s checks hold whenever it is entered: the processor holds the lock of the
    process and no other lock, and the process is no longer RUNNING.
   */
  lemma SchedChecks(r: Run, c: nat)
    requires IsRun(r) && Sized(Final(r)) && c < NCPU && Final(r).cpus[c].at.Back?
    ensures var s, p := Final(r), Final(r).cpus[c].at.p;
      && p < NPROC && s.procs[p].state != RUNNING && s.wait != Some(c)
      && forall k :: 0 <= k < NPROC ==> (s.lock[k] == Some(c) <==> k == p)
  {
    RunInv(r);
    var s := Final(r);
    assert s.wait == Some(c) <==> HoldsWait(s, c);
    forall k | 0 <= k < NPROC ensures s.lock[k] == Some(c) <==> k == s.cpus[c].at.p {
      assert s.lock[k] == Some(c) <==> HoldsLock(s, c, k);
    }
  }
}
