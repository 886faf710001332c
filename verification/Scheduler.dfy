/**
  The choice that scheduler() of kernel/proc.c makes, over the runs of module Processes.

  The two passes take one p->lock at a time, so all other processors go on meanwhile.  What
  the choice depends on is the rank of each process; the results are about stretches of a
  run in which no rank changes, whatever else happens.
 */
module Scheduler {
  import opened Collections
  import opened Processes

  /** What the passes look at: the priority of a RUNNABLE process. */
  function Rank(x: Proc): Option<int> {
    if x.state == RUNNABLE then Some(x.priority) else None
  }

  ghost predicate SameRanks(s: State, t: State) {
    |t.procs| == |s.procs| && forall j :: 0 <= j < |s.procs| ==> Rank(t.procs[j]) == Rank(s.procs[j])
  }

  /** Run r is run q and then steps, of any processors, that leave all ranks alone. */
  ghost predicate Undisturbed(r: Run, q: Run)
    requires IsRun(r)
  {
    r == q || (r.Then? && Undisturbed(r.before, q) && SameRanks(Final(r.before), Final(r)))
  }

  /** Process k is what the scheduler is to run: least priority value, then lowest index. */
  ghost predicate Best(procs: seq<Proc>, k: nat) {
    && k < |procs| && procs[k].state == RUNNABLE
    && (forall j :: 0 <= j < |procs| && procs[j].state == RUNNABLE ==> procs[k].priority <= procs[j].priority)
    && (forall j :: 0 <= j < k && procs[j].state == RUNNABLE ==> procs[k].priority < procs[j].priority)
  }

  ghost predicate NoneRunnable(procs: seq<Proc>) {
    forall j :: 0 <= j < |procs| ==> procs[j].state != RUNNABLE
  }

  /** `best` is the least priority value of the RUNNABLE processes before k, 21 if there is none. */
  ghost predicate Least(procs: seq<Proc>, k: nat, best: int) {
    && (forall j :: 0 <= j < k && j < |procs| && procs[j].state == RUNNABLE ==> best <= procs[j].priority)
    && (best == 21 || exists j :: 0 <= j < k && j < |procs| && Rank(procs[j]) == Some(best))
  }

  /** What the passes of processor c have found out so far. */
  ghost predicate Scanned(s: State, c: nat)
    requires Sized(s) && c < NCPU
  {
    match s.cpus[c].at
    case Pass1(k, best) => k <= NPROC && best <= 21 && Least(s.procs, k, best)
    case Pass2(k, best) =>
      && k < NPROC && best <= 20 && Least(s.procs, NPROC, best)
      && forall j :: 0 <= j < k ==> Rank(s.procs[j]) != Some(best)
    case Wfi => NoneRunnable(s.procs)
    case _ => false
  }

  /** Turns that the passes have left. */
  function Left(at: Place): int {
    match at
    case Pass1(k, _) => 2 * NPROC + 2 - k
    case Pass2(k, _) => NPROC + 1 - k
    case _ => 0
  }

  /** After an own step of c from s to t: a dispatch of the best process, or progress. */
  ghost predicate Picks(s: State, t: State, c: nat)
    requires c < |s.cpus| && c < |t.cpus|
  {
    var at := t.cpus[c].at;
    || (at.InProc? && t.cpus[c].proc.Some? && Best(s.procs, t.cpus[c].proc.value))
    || (at.Wfi? && NoneRunnable(s.procs))
    || (s.cpus[c].at.Wfi? && at == Pass1(0, 21))
    || ((at.Pass1? || at.Pass2?) && 0 < Left(at) < Left(s.cpus[c].at))
  }

  lemma LeastMore(procs: seq<Proc>, k: nat, best: int)
    requires k < |procs| && Least(procs, k, best)
    ensures var x := procs[k];
      Least(procs, k + 1, if x.state == RUNNABLE && x.priority < best then x.priority else best)
  {
    var x := procs[k];
    assert x.state == RUNNABLE ==> Rank(procs[k]) == Some(x.priority);
  }

  /** Priorities are at most 20, so 21 is left only if no process is RUNNABLE. */
  lemma LeastAll(s: State, best: int)
    requires Inv(s) && Least(s.procs, NPROC, best) && best > 20
    ensures NoneRunnable(s.procs)
  {
    forall j | 0 <= j < NPROC ensures s.procs[j].state != RUNNABLE {
      assert PcFits(s.procs[j], s.pc[j]);
    }
  }

  lemma Pass1Step(s: State, c: nat)
    requires Sized(s) && c < NCPU && Scanned(s, c) && s.cpus[c].at.Pass1? && StepSched(s, c).Some?
    requires s.cpus[c].at.k == NPROC && s.cpus[c].at.best > 20 ==> NoneRunnable(s.procs)
    ensures var t := StepSched(s, c).value; Sized(t) && Scanned(t, c) && t.procs == s.procs && Picks(s, t, c)
  {
    var k, best := s.cpus[c].at.k, s.cpus[c].at.best;
    if k < NPROC { LeastMore(s.procs, k, best); }
  }

  lemma Pass2Step(s: State, c: nat)
    requires Sized(s) && c < NCPU && Scanned(s, c) && s.cpus[c].at.Pass2? && StepSched(s, c).Some?
    ensures var t := StepSched(s, c).value;
      Sized(t) && Picks(s, t, c) && (t.cpus[c].at.InProc? || (t.procs == s.procs && Scanned(t, c)))
  {
    var k, best := s.cpus[c].at.k, s.cpus[c].at.best;
    var j :| 0 <= j < NPROC && Rank(s.procs[j]) == Some(best);
    assert k <= j;
    if s.procs[k].state == RUNNABLE && s.procs[k].priority == best {
      assert Best(s.procs, k) by {
        forall i | 0 <= i < k && s.procs[i].state == RUNNABLE ensures best < s.procs[i].priority {
          assert Rank(s.procs[i]) != Some(best);
        }
      }
    } else {
      assert k < j;
    }
  }

  lemma OwnStep(s: State, c: nat, act: Action)
    requires Inv(s) && c < NCPU && Scanned(s, c) && Do(s, Proceed(c, act)).Some?
    ensures var t := Do(s, Proceed(c, act)).value;
      Sized(t) && Picks(s, t, c) && (t.cpus[c].at.InProc? || Scanned(t, c))
  {
    if s.cpus[c].at.Pass1? {
      if s.cpus[c].at.k == NPROC && s.cpus[c].at.best > 20 { LeastAll(s, s.cpus[c].at.best); }
      Pass1Step(s, c);
    }
    if s.cpus[c].at.Pass2? { Pass2Step(s, c); }
  }

  /** A dispatch changes a rank. */
  lemma DispatchDisturbs(s: State, c: nat, act: Action)
    requires Sized(s) && c < NCPU && Scanning(s.cpus[c].at) && Do(s, Proceed(c, act)).Some?
    requires Do(s, Proceed(c, act)).value.cpus[c].at.InProc?
    ensures !SameRanks(s, Do(s, Proceed(c, act)).value)
  {
    var k := s.cpus[c].at.k;
    assert Rank(Do(s, Proceed(c, act)).value.procs[k]) != Rank(s.procs[k]);
  }

  /** No step of another processor moves the scheduler of c. */
  lemma OtherStep(s: State, step: Step, c: nat)
    requires Sized(s) && c < NCPU && Do(s, step).Some? && !(step.Proceed? && step.c == c)
    ensures var t := Do(s, step).value; |t.cpus| == NCPU && t.cpus[c] == s.cpus[c]
  {
    if step.Proceed? && s.cpus[step.c].at.InProc? {
      ProcStep(s, step.c, s.cpus[step.c].proc.value, step.act, c);
    }
  }

  lemma ProcStep(s: State, d: nat, p: nat, act: Action, c: nat)
    requires Sized(s) && d < NCPU && p < NPROC && c < NCPU && c != d && StepProc(s, d, p, act).Some?
    ensures var t := StepProc(s, d, p, act).value; |t.cpus| == NCPU && t.cpus[c] == s.cpus[c]
  {
    if IsWait(s.pc[p]) {
      assert StepProc(s, d, p, act) == StepWait(s, d, p, act);
    } else if IsFork(s.pc[p]) {
      assert StepProc(s, d, p, act) == StepFork(s, d, p, act);
    }
  }

  lemma SameScanned(s: State, t: State, c: nat)
    requires Sized(s) && Sized(t) && c < NCPU && Scanned(s, c) && SameRanks(s, t) && t.cpus[c] == s.cpus[c]
    ensures Scanned(t, c)
  {
    forall j | 0 <= j < NPROC ensures Rank(t.procs[j]) == Rank(s.procs[j]) {
    }
  }

  lemma {:induction false} RunScanned(r: Run, q: Run, c: nat)
    requires IsRun(r) && IsRun(q) && Undisturbed(r, q) && c < NCPU
    requires Sized(Final(q)) && Final(q).cpus[c].at == Pass1(0, 21)
    ensures Inv(Final(r)) && Scanned(Final(r), c)
  {
    RunInv(r);
    if r != q {
      RunScanned(r.before, q, c);
      var s, t := Final(r.before), Final(r);
      if r.step.Proceed? && r.step.c == c {
        OwnStep(s, c, r.step.act);
        if t.cpus[c].at.InProc? { DispatchDisturbs(s, c, r.step.act); }
      } else {
        OtherStep(s, r.step, c);
        SameScanned(s, t, c);
      }
    }
  }

  /**
    Processor c begins its passes after run q; r goes on from q with steps of all processors
    in which no rank changes.  Then the next step of c, if it dispatches, runs the RUNNABLE
    process of least priority value, the first such in the table; c comes to wait for an
    interrupt only if no process is RUNNABLE; and any other step of c brings it nearer to one
    of these.
   */
  lemma SchedulerPicksBest(r: Run, q: Run, c: nat, act: Action)
    requires IsRun(r) && IsRun(q) && Undisturbed(r, q) && c < NCPU
    requires Sized(Final(q)) && Final(q).cpus[c].at == Pass1(0, 21)
    ensures var s := Final(r);
      && Sized(s) && Scanning(s.cpus[c].at)
      && (s.cpus[c].at.Wfi? ==> NoneRunnable(s.procs))
      && (Do(s, Proceed(c, act)).Some? ==>
            var t := Do(s, Proceed(c, act)).value; c < |t.cpus| && Picks(s, t, c))
  {
    RunScanned(r, q, c);
    var s := Final(r);
    if Do(s, Proceed(c, act)).Some? { OwnStep(s, c, act); }
  }
}
