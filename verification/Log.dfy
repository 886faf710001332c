/**
  The redo log of the file system (kernel/log.c) as a state machine.

  One step is a critical section under log.lock, one disk write of commit or of
  recovery, or a power failure.  A failure may therefore fall between any two disk
  writes, those of recovery included.  Module LogDevice has the code itself and shows
  that it performs runs of this machine on the disk's blocks.
 */
module Log {
  import opened MapSums
  import opened Params
  import opened Collections

  /** The contents of a block, as 32-bit words. */
  type Block = seq<int>

  /** The disk by its parts: the header's list, the log blocks, the home blocks. */
  datatype Disk = Disk(head: seq<nat>, logs: seq<Block>, home: map<nat, Block>)

  datatype Phase =
    | Running                  // system calls may run
    | Logging(tail: nat)       // write_log has copied `tail` blocks
    | Installing(tail: nat, recovering: bool)  // install_trans: `tail` blocks are home
    | Committed                // the log is erased, log.committing is still set
    | Down                     // after a power failure

  /**
    `view` holds what bread returns for home blocks: their contents with all changes
    made through the buffer cache.  `spent` is not in the source: it counts the
    blocks each running operation has added to the log.
   */
  datatype State = State(
    disk: Disk, view: map<nat, Block>, lh: seq<nat>, outstanding: int, committing: bool,
    phase: Phase, spent: map<nat, nat>)

  datatype Step =
    | BeginOp(op: nat)
    | LogWrite(op: nat, b: nat, data: Block)
    | EndOp(op: nat)
    | Advance                  // the next disk write of commit or recovery
    | Crash

  datatype Outcome = Ok(state: State) | Sleep | Panic | Idle

  // --- The code, step by step ---

  /** The slot log_write uses for block b: the absorbing entry, or the end of the list. */
  function Slot(lh: seq<nat>, b: nat): (k: nat)
    ensures k <= |lh|
    ensures k < |lh| ==> lh[k] == b
    ensures forall i :: 0 <= i < k ==> lh[i] != b
  {
    if lh == [] || lh[0] == b then 0 else 1 + Slot(lh[1..], b)
  }

  function Begin(s: State, op: nat): Outcome {
    if s.committing then Sleep
    else if |s.lh| + (s.outstanding + 1) * MAXOPBLOCKS > LOGBLOCKS then Sleep
    else Ok(s.(outstanding := s.outstanding + 1, spent := s.spent[op := 0]))
  }

  function Write(s: State, op: nat, b: nat, data: Block): Outcome
    requires op in s.spent
  {
    if |s.lh| >= LOGBLOCKS then Panic
    else if s.outstanding < 1 then Panic
    else
      var t := s.(view := s.view[b := data]);
      Ok(if Slot(s.lh, b) < |s.lh| then t
         else t.(lh := s.lh + [b], spent := s.spent[op := s.spent[op] + 1]))
  }

  function End(s: State, op: nat): Outcome {
    var t := s.(outstanding := s.outstanding - 1, spent := s.spent - {op});
    if s.committing then Panic
    else if t.outstanding == 0 then Ok(t.(committing := true, phase := Logging(0)))
    else Ok(t)
  }

  /** The next disk write of commit, of recovery, or the clearing of log.committing. */
  function Proceed(s: State): Outcome
    requires Readable(s)
  {
    match s.phase
    case Logging(tail) =>
      if |s.lh| == 0 then Ok(s.(phase := Committed))
      else if tail < |s.lh| then Ok(CopyToLog(s, tail).(phase := Logging(tail + 1)))
      else Ok(WriteHead(s, s.lh).(phase := Installing(0, false)))
    case Installing(tail, recovering) =>
      if tail < |s.lh| then Ok(Install(s, tail).(phase := Installing(tail + 1, recovering)))
      else Ok(WriteHead(s, []).(phase := if recovering then Running else Committed))
    case Committed => Ok(s.(committing := false, phase := Running))
    case Down => Ok(s.(lh := s.disk.head, phase := Installing(0, true)))
    case Running => Idle
  }

  function CopyToLog(s: State, tail: nat): State
    requires Readable(s) && tail < |s.lh|
  {
    s.(disk := s.disk.(logs := s.disk.logs[tail := s.view[s.lh[tail]]]))
  }

  function Install(s: State, tail: nat): State
    requires Readable(s) && tail < |s.lh|
  {
    var data := s.disk.logs[tail];
    s.(disk := s.disk.(home := s.disk.home[s.lh[tail] := data]), view := s.view[s.lh[tail] := data])
  }

  function WriteHead(s: State, lh: seq<nat>): State {
    s.(disk := s.disk.(head := lh), lh := lh)
  }

  function Lose(s: State): State {
    State(s.disk, s.disk.home, [], 0, false, Down, map[])
  }

  /** The file system is in service: neither down nor in recovery. */
  predicate Up(s: State) {
    !s.phase.Down? && !(s.phase.Installing? && s.phase.recovering)
  }

  /** What the callers of the log promise: nothing else is assumed of a run. */
  predicate Allowed(s: State, step: Step) {
    match step
    case BeginOp(op) => op !in s.spent && Up(s)
    case LogWrite(op, b, _) => op in s.spent && s.spent[op] < MAXOPBLOCKS && b in s.view
    case EndOp(op) => op in s.spent
    case Advance => true
    case Crash => true
  }

  function Do(s: State, step: Step): Outcome
    requires Readable(s) && Allowed(s, step)
  {
    match step
    case BeginOp(op) => Begin(s, op)
    case LogWrite(op, b, data) => Write(s, op, b, data)
    case EndOp(op) => End(s, op)
    case Advance => Proceed(s)
    case Crash => Ok(Lose(s))
  }

  // --- The invariant ---

  predicate Readable(s: State) {
    && |s.disk.logs| == LOGBLOCKS
    && s.view.Keys == s.disk.home.Keys
    && |s.lh| <= LOGBLOCKS
    && (forall i :: 0 <= i < |s.lh| ==> s.lh[i] in s.view)
  }

  /** Units of log space that running operations may still use. */
  ghost function Unspent(spent: map<nat, nat>): int {
    |spent| * MAXOPBLOCKS - Sum(spent)
  }

  ghost predicate Reservation(s: State) {
    && s.outstanding == |s.spent|
    && (forall op :: op in s.spent ==> s.spent[op] <= MAXOPBLOCKS)
    && |s.lh| + Unspent(s.spent) <= LOGBLOCKS
    && s.committing == (Up(s) && !s.phase.Running?)
    && (!s.phase.Running? ==> s.spent == map[])
  }

  /** A home block that differs from its cached copy is listed, at index `from` or later. */
  ghost predicate CleanBut(s: State, from: nat) {
    && s.view.Keys == s.disk.home.Keys
    && forall b :: b in s.view && s.view[b] != s.disk.home[b] ==> from <= Slot(s.lh, b) < |s.lh|
  }

  predicate HeadOk(d: Disk) {
    && |d.head| <= LOGBLOCKS == |d.logs|
    && Distinct(d.head)
    && forall i :: 0 <= i < |d.head| ==> d.head[i] in d.home
  }

  /** The first n log blocks hold the first n listed blocks. */
  predicate Logged(s: State, n: nat)
    requires Readable(s) && n <= |s.lh|
  {
    forall i :: 0 <= i < n ==> s.disk.logs[i] == s.view[s.lh[i]]
  }

  ghost predicate DiskInv(s: State)
    requires Readable(s)
  {
    && HeadOk(s.disk)
    && Distinct(s.lh)
    && match s.phase
       case Running => s.disk.head == [] && CleanBut(s, 0)
       case Logging(tail) => s.disk.head == [] && CleanBut(s, 0) && tail <= |s.lh| && Logged(s, tail)
       case Installing(tail, recovering) =>
         && s.disk.head == s.lh
         && tail <= |s.lh|
         && if recovering then s.view == s.disk.home && Logged(s, tail) else CleanBut(s, tail) && Logged(s, |s.lh|)
       case Committed => s.disk.head == [] == s.lh && s.view == s.disk.home
       case Down => s.lh == [] && s.view == s.disk.home
  }

  ghost predicate Inv(s: State) {
    Readable(s) && Reservation(s) && DiskInv(s)
  }

  // --- What the log is for: an atomic disk ---

  /** The home blocks as a finished recovery of disk d leaves them. */
  function Recovered(d: Disk): (home: map<nat, Block>)
    requires HeadOk(d)
  {
    map b | b in d.home :: var k := Slot(d.head, b); if k < |d.head| then d.logs[k] else d.home[b]
  }

  /** The specification: a disk whose transactions take effect at once or not at all. */
  datatype Atomic = Atomic(durable: map<nat, Block>, pending: map<nat, Block>)

  /** Writing a non-empty header is the commit point. */
  predicate CommitPoint(s: State, step: Step) {
    step.Advance? && s.phase.Logging? && s.phase.tail == |s.lh| && s.lh != []
  }

  function Effect(a: Atomic, s: State, step: Step): Atomic {
    if step.LogWrite? then a.(pending := a.pending[step.b := step.data])
    else if step.Crash? then a.(pending := a.durable)
    else if CommitPoint(s, step) then a.(durable := a.pending)
    else a
  }

  ghost predicate Agrees(a: Atomic, s: State) {
    && Inv(s)
    && a.durable == Recovered(s.disk)
    && a.pending == (if Up(s) then s.view else a.durable)
  }

  // --- Log space: no step of a well-behaved run panics ---

  lemma BeginReserves(s: State, op: nat)
    requires Reservation(s) && op !in s.spent && Begin(s, op).Ok? && (s.phase.Running? || s.committing)
    ensures Reservation(Begin(s, op).state)
  {
    SumAdd(s.spent, op, 0);
  }

  lemma WriteReserves(s: State, op: nat, b: nat, data: Block)
    requires Reservation(s) && op in s.spent && s.spent[op] < MAXOPBLOCKS
    ensures Write(s, op, b, data).Ok?
    ensures Reservation(Write(s, op, b, data).state)
  {
    var rest := s.spent - {op};
    SumRemove(s.spent, op);
    SizeRemove(s.spent, op);
    assert forall o :: o in rest ==> rest[o] <= MAXOPBLOCKS;
    SumBound(rest, MAXOPBLOCKS);
    SumUpdate(s.spent, op, s.spent[op] + 1);
  }

  lemma EndReserves(s: State, op: nat)
    requires Reservation(s) && op in s.spent
    ensures End(s, op).Ok?
    ensures Reservation(End(s, op).state)
  {
    SumRemove(s.spent, op);
    SizeRemove(s.spent, op);
  }

  lemma StepReserves(s: State, step: Step)
    requires Inv(s) && Allowed(s, step)
    ensures !Do(s, step).Panic?
    ensures Do(s, step).Ok? ==> Reservation(Do(s, step).state)
  {
    match step
    case BeginOp(op) => if Begin(s, op).Ok? { BeginReserves(s, op); }
    case LogWrite(op, b, data) => WriteReserves(s, op, b, data);
    case EndOp(op) => EndReserves(s, op);
    case Advance =>
    case Crash =>
  }

  // --- Atomicity, step by step ---

  /** Installing a block, any number of times, does not change what recovery leaves. */
  lemma InstallOne(d: Disk, k: nat)
    requires HeadOk(d) && k < |d.head|
    ensures Recovered(d.(home := d.home[d.head[k] := d.logs[k]])) == Recovered(d)
  {
  }

  /** Log blocks that hold v, with the other home blocks equal to v, recover to v. */
  lemma RecoveredIs(d: Disk, v: map<nat, Block>)
    requires HeadOk(d) && v.Keys == d.home.Keys
    requires forall i :: 0 <= i < |d.head| ==> d.logs[i] == v[d.head[i]]
    requires forall b :: b in v && b !in d.head ==> d.home[b] == v[b]
    ensures Recovered(d) == v
  {
  }

  lemma WriteClean(s: State, step: Step)
    requires Inv(s) && s.phase.Running? && step.LogWrite? && Allowed(s, step) && Do(s, step).Ok?
    ensures CleanBut(Do(s, step).state, 0)
  {
    var t := Do(s, step).state;
    forall b | b in t.view && t.view[b] != t.disk.home[b] ensures Slot(t.lh, b) < |t.lh| {
      assert b in t.lh;
    }
  }

  lemma WriteAgrees(a: Atomic, s: State, step: Step)
    requires Agrees(a, s) && step.LogWrite? && Allowed(s, step) && Do(s, step).Ok?
    ensures Agrees(Effect(a, s, step), Do(s, step).state)
  {
    StepReserves(s, step);
    var t := Do(s, step).state;
    WriteClean(s, step);
    assert Distinct(t.lh);
  }

  lemma LoggingAgrees(a: Atomic, s: State)
    requires Agrees(a, s) && s.phase.Logging?
    ensures Agrees(Effect(a, s, Advance), Proceed(s).state)
  {
    StepReserves(s, Advance);
    var t := Proceed(s).state;
    if CommitPoint(s, Advance) {
      RecoveredIs(t.disk, t.view);
    }
  }

  /** In commit the copied block is already what the cache holds. */
  lemma InstallingInv(s: State)
    requires Inv(s) && s.phase.Installing? && !s.phase.recovering && s.phase.tail < |s.lh|
    ensures Inv(Proceed(s).state) && Proceed(s).state.view == s.view
  {
    var t, tail := Proceed(s).state, s.phase.tail;
    assert t.view == s.view;
    forall b | b in t.view && t.view[b] != t.disk.home[b] ensures tail + 1 <= Slot(t.lh, b) < |t.lh| {
      assert s.view[b] != s.disk.home[b];
      assert s.lh[Slot(s.lh, b)] == b;
    }
  }

  lemma InstallingAgrees(a: Atomic, s: State)
    requires Agrees(a, s) && s.phase.Installing? && !s.phase.recovering && s.phase.tail < |s.lh|
    ensures Agrees(Effect(a, s, Advance), Proceed(s).state)
  {
    InstallingInv(s);
    InstallOne(s.disk, s.phase.tail);
  }

  lemma ErasingAgrees(a: Atomic, s: State)
    requires Agrees(a, s) && s.phase.Installing? && s.phase.tail == |s.lh|
    ensures Agrees(Effect(a, s, Advance), Proceed(s).state)
  {
    var t := Proceed(s).state;
    assert s.view == s.disk.home;
    RecoveredIs(s.disk, s.view);
    assert Recovered(t.disk) == t.disk.home;
  }

  lemma RecoveringAgrees(a: Atomic, s: State)
    requires Agrees(a, s) && s.phase.Installing? && s.phase.recovering && s.phase.tail < |s.lh|
    ensures Agrees(Effect(a, s, Advance), Proceed(s).state)
  {
    var t := Proceed(s).state;
    InstallOne(s.disk, s.phase.tail);
  }

  /** Every step of the code is a step of the atomic disk, and none panics. */
  lemma StepAgrees(a: Atomic, s: State, step: Step)
    requires Agrees(a, s) && Allowed(s, step)
    ensures !Do(s, step).Panic?
    ensures Do(s, step).Ok? ==> Agrees(Effect(a, s, step), Do(s, step).state)
  {
    StepReserves(s, step);
    if Do(s, step).Ok? {
      match step
      case LogWrite(_, _, _) => WriteAgrees(a, s, step);
      case Advance =>
        if s.phase.Logging? { LoggingAgrees(a, s); }
        else if s.phase.Installing? {
          if s.phase.tail == |s.lh| { ErasingAgrees(a, s); }
          else if s.phase.recovering { RecoveringAgrees(a, s); }
          else { InstallingAgrees(a, s); }
        }
      case _ =>
    }
  }

  // --- Whole runs ---

  /** A run from the first boot of a formatted disk.  Attempts that sleep change nothing. */
  datatype Run = Boot(disk: Disk) | Then(before: Run, step: Step)

  ghost predicate IsRun(r: Run)
    decreases r, 0
  {
    match r
    case Boot(d) => |d.logs| == LOGBLOCKS && d.head == []
    case Then(q, step) =>
      IsRun(q) && Readable(Final(q)) && Allowed(Final(q), step) && Do(Final(q), step).Ok?
  }

  ghost function Final(r: Run): State
    requires IsRun(r)
    decreases r, 1
  {
    match r
    case Boot(d) => State(d, d.home, [], 0, false, Down, map[])
    case Then(q, step) => Do(Final(q), step).state
  }

  /** The atomic disk after the run. */
  ghost function History(r: Run): Atomic
    requires IsRun(r)
  {
    match r
    case Boot(d) => Atomic(d.home, d.home)
    case Then(q, step) => Effect(History(q), Final(q), step)
  }

  lemma {:induction false} RunAgrees(r: Run)
    requires IsRun(r)
    ensures Agrees(History(r), Final(r))
  {
    match r
    case Boot(d) => assert Recovered(d) == d.home;
    case Then(q, step) =>
      RunAgrees(q);
      StepAgrees(History(q), Final(q), step);
  }

  lemma IdleHome(a: Atomic, s: State)
    requires Agrees(a, s) && s.phase.Running? && s.lh == []
    ensures s.disk.home == a.durable == a.pending
  {
    assert s.view == s.disk.home;
    RecoveredIs(s.disk, s.view);
  }

  lemma OpenKeeps(a: Atomic, s: State, step: Step)
    requires Inv(s) && s.spent != map[]
    ensures Effect(a, s, step).durable == a.durable
  {
  }

  /**
    Crash atomicity.  After any run, with failures at any point, recovery leaves the
    home blocks exactly as the transactions whose non-empty header reached the disk
    left them; calls read the pending contents; an idle log means the home blocks are
    up to date; and what is durable never changes while an operation is running.
   */
  lemma CrashAtomicity(r: Run)
    requires IsRun(r)
    ensures var s, a := Final(r), History(r);
      && HeadOk(s.disk)
      && Recovered(s.disk) == a.durable
      && (Up(s) ==> s.view == a.pending)
      && (s.phase.Running? && s.lh == [] ==> s.disk.home == a.durable == a.pending)
    ensures r.Then? && Final(r.before).spent != map[] ==> History(r).durable == History(r.before).durable
  {
    RunAgrees(r);
    if Final(r).phase.Running? && Final(r).lh == [] {
      IdleHome(History(r), Final(r));
    }
    if r.Then? && Final(r.before).spent != map[] {
      RunAgrees(r.before);
      OpenKeeps(History(r.before), Final(r.before), r.step);
    }
  }

  /**
    Log space.  In every run the log list and the unspent reservations fit in the log,
    commit never overlaps an operation, and no allowed step panics.
   */
  lemma NoPanic(r: Run, step: Step)
    requires IsRun(r) && Allowed(Final(r), step)
    ensures var s := Final(r);
      && Readable(s)
      && !Do(s, step).Panic?
      && |s.lh| + Unspent(s.spent) <= LOGBLOCKS
      && s.outstanding == |s.spent|
      && (s.committing ==> s.outstanding == 0)
  {
    RunAgrees(r);
    StepReserves(Final(r), step);
  }

  lemma MayWrite(r: Run, step: Step)
    requires IsRun(r) && step.LogWrite? && Allowed(Final(r), step)
    ensures |Final(r).lh| < LOGBLOCKS && Final(r).outstanding >= 1
  {
    NoPanic(r, step);
  }

  /** Run r is run q followed by disk writes of commit or recovery only. */
  predicate Follows(r: Run, q: Run) {
    r == q || (r.Then? && r.step.Advance? && Follows(r.before, q))
  }

  lemma {:induction false} FollowsMore(r: Run, q: Run, p: Run)
    requires Follows(r, q) && Follows(q, p)
    ensures Follows(r, p)
  {
    if r != q { FollowsMore(r.before, q, p); }
  }

  /** Commit and recovery do not change what calls read. */
  lemma {:induction false} FollowsKeeps(r: Run, q: Run)
    requires IsRun(r) && IsRun(q) && Follows(r, q)
    ensures History(r).pending == History(q).pending
  {
    if r != q { FollowsKeeps(r.before, q); }
  }

  /** Once the header is written, and in recovery, what is durable stays the same. */
  lemma {:induction false} QuietKeeps(r: Run, q: Run)
    requires IsRun(r) && IsRun(q) && Follows(r, q) && !Final(q).phase.Logging?
    ensures History(r) == History(q) && !Final(r).phase.Logging?
  {
    if r != q { QuietKeeps(r.before, q); }
  }

  /** A finished commit has made all pending writes durable, and they are home. */
  lemma CommitInstalls(r: Run, q: Run)
    requires IsRun(r) && IsRun(q) && Follows(r, q) && Final(r).phase.Committed?
    ensures Final(r).disk.home == History(r).durable == History(q).pending
  {
    RunAgrees(r);
    FollowsKeeps(r, q);
    RecoveredIs(Final(r).disk, Final(r).view);
  }
}
