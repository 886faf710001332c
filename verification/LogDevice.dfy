/**
  The code of kernel/log.c over numbered disk blocks.

  Every method keeps a record of the steps it has performed on the state machine of
  module Log, one for each critical section and each disk write, so that the theorems
  about all runs of that machine speak about this code at every point where the power
  may fail.
 */
module LogDevice {
  import opened Log
  import opened Params

  /** Words of a block that hold the header: n and block[LOGBLOCKS]. */
  const HEADWORDS: nat := 1 + LOGBLOCKS

  type Blocks = map<nat, Block>

  /** The header block is at `start`, the log blocks follow it; the rest is home. */
  datatype Layout = Layout(start: nat, size: nat) {
    predicate Fits() { start + LOGBLOCKS < size }
    predicate IsHome(b: int) { 0 <= b < size && !(start <= b <= start + LOGBLOCKS) }
  }

  // --- The header block ---

  predicate HeadFits(b: Block) {
    && HEADWORDS <= |b|
    && 0 <= b[0] <= LOGBLOCKS
    && forall i :: 1 <= i <= b[0] ==> 0 <= b[i]
  }

  function DecodeHead(b: Block): (lh: seq<nat>)
    requires HeadFits(b)
    ensures |lh| == b[0] && forall i :: 0 <= i < |lh| ==> lh[i] == b[1 + i]
  {
    seq(b[0], i requires 0 <= i < b[0] => b[1 + i])
  }

  /** Block b holds list lh.  Entries of an older, longer list may follow it. */
  predicate Encodes(b: Block, lh: seq<nat>) {
    && HEADWORDS <= |b|
    && |lh| <= LOGBLOCKS
    && b[0] == |lh|
    && forall i :: 0 <= i < |lh| ==> b[1 + i] == lh[i]
  }

  lemma HeadRoundTrip(b: Block, lh: seq<nat>)
    requires Encodes(b, lh)
    ensures HeadFits(b) && DecodeHead(b) == lh
  {
    assert forall i :: 1 <= i <= b[0] ==> b[i] == lh[i - 1];
  }

  // --- The parts of a disk ---

  ghost predicate DiskFits(l: Layout, d: Blocks) {
    && l.Fits()
    && (forall b: nat :: b in d <==> b < l.size)
    && HeadFits(d[l.start])
  }

  ghost function Logs(l: Layout, d: Blocks): (logs: seq<Block>)
    requires l.Fits() && forall b: nat :: b < l.size ==> b in d
    ensures |logs| == LOGBLOCKS && forall i :: 0 <= i < LOGBLOCKS ==> logs[i] == d[l.start + 1 + i]
  {
    seq(LOGBLOCKS, i requires 0 <= i < LOGBLOCKS => d[l.start + 1 + i])
  }

  ghost function Home(l: Layout, d: Blocks): (home: map<nat, Block>)
    ensures forall b :: b in home <==> b in d && l.IsHome(b)
    ensures forall b :: b in home ==> home[b] == d[b]
  {
    map b | b in d && l.IsHome(b) :: d[b]
  }

  ghost function Parts(l: Layout, d: Blocks): Disk
    requires DiskFits(l, d)
  {
    Disk(DecodeHead(d[l.start]), Logs(l, d), Home(l, d))
  }

  /** Writing one block changes one part, because the log area and home are disjoint. */
  lemma WriteLogBlock(l: Layout, d: Blocks, i: nat, data: Block)
    requires DiskFits(l, d) && i < LOGBLOCKS
    ensures var d' := d[l.start + 1 + i := data];
      DiskFits(l, d') && Parts(l, d') == Parts(l, d).(logs := Logs(l, d)[i := data])
  {
    var d' := d[l.start + 1 + i := data];
    assert Logs(l, d') == Logs(l, d)[i := data];
    assert Home(l, d') == Home(l, d);
  }

  lemma HomeSet(l: Layout, d: Blocks, b: nat, data: Block)
    requires l.IsHome(b)
    ensures Home(l, d[b := data]) == Home(l, d)[b := data]
  {
  }

  /** Changing a cached home block leaves the rest of the cache in step with the disk. */
  lemma CacheSet(l: Layout, d: Blocks, c: Blocks, b: nat, data: Block)
    requires CacheFits(l, d, c) && l.IsHome(b)
    ensures CacheFits(l, d, c[b := data])
  {
  }

  /** What log_write changes. */
  lemma WriteIs(s: State, op: nat, b: nat, data: Block)
    requires op in s.spent && |s.lh| < LOGBLOCKS && s.outstanding >= 1
    ensures Write(s, op, b, data).Ok?
    ensures var t := Write(s, op, b, data).state;
      && t.disk == s.disk && t.view == s.view[b := data]
      && t.outstanding == s.outstanding && t.committing == s.committing
      && t.lh == if Slot(s.lh, b) < |s.lh| then s.lh else s.lh + [b]
  {
  }

  /** Writing a log block to both keeps cache and disk in step, and the home blocks as they are. */
  lemma LogFits(l: Layout, d: Blocks, c: Blocks, i: nat, b: nat, data: Block)
    requires CacheFits(l, d, c) && i < LOGBLOCKS && b == l.start + 1 + i
    ensures CacheFits(l, d[b := data], c[b := data]) && Home(l, c[b := data]) == Home(l, c)
    ensures Parts(l, d[b := data]) == Parts(l, d).(logs := Logs(l, d)[i := data])
  {
    WriteLogBlock(l, d, i, data);
  }

  /** Writing a home block to both keeps cache and disk in step. */
  lemma HomeFits(l: Layout, d: Blocks, c: Blocks, b: nat, data: Block)
    requires CacheFits(l, d, c) && l.IsHome(b)
    ensures CacheFits(l, d[b := data], c[b := data])
  {
    WriteHomeBlock(l, d, b, data);
  }

  lemma WriteHomeBlock(l: Layout, d: Blocks, b: nat, data: Block)
    requires DiskFits(l, d) && l.IsHome(b)
    ensures var d' := d[b := data];
      DiskFits(l, d') && Parts(l, d') == Parts(l, d).(home := Home(l, d)[b := data])
  {
    var d' := d[b := data];
    assert Logs(l, d') == Logs(l, d);
    assert Home(l, d') == Home(l, d)[b := data];
  }

  lemma WriteHeadBlock(l: Layout, d: Blocks, h: Block, lh: seq<nat>)
    requires DiskFits(l, d) && Encodes(h, lh)
    ensures var d' := d[l.start := h];
      DiskFits(l, d') && Parts(l, d') == Parts(l, d).(head := lh)
  {
    HeadRoundTrip(h, lh);
    var d' := d[l.start := h];
    assert Logs(l, d') == Logs(l, d);
    assert Home(l, d') == Home(l, d);
  }

  /** Outside the home blocks the cache never differs from the disk. */
  ghost predicate CacheFits(l: Layout, d: Blocks, c: Blocks) {
    && DiskFits(l, d)
    && c.Keys == d.Keys
    && forall b :: b in c && !l.IsHome(b) ==> c[b] == d[b]
  }

  /** The run after one more disk write of the commit or of recovery. */
  lemma NextBlock(run: Run, tail: nat)
    requires IsRun(run) && Readable(Final(run)) && tail < |Final(run).lh|
    requires Final(run).phase == Logging(tail) || (Final(run).phase.Installing? && Final(run).phase.tail == tail)
    ensures IsRun(Then(run, Advance)) && Proceed(Final(run)).Ok? &&
      Final(Then(run, Advance)) == Proceed(Final(run)).state
    ensures var p, q := Final(run).phase, Final(Then(run, Advance)).phase;
      q == if p.Logging? then Logging(tail + 1) else Installing(tail + 1, p.recovering)
  {
  }

  class LogDevice {
    const l: Layout
    var disk: Blocks               // what survives a power failure
    var cache: Blocks              // what bread returns
    const block: array<nat>        // log.lh.block
    var n: nat                     // log.lh.n
    var outstanding: int
    var committing: bool
    ghost var run: Run             // the steps performed since the first boot

    ghost predicate Shape()
      reads `disk, `cache, `n, block
    {
      CacheFits(l, disk, cache) && block.Length == LOGBLOCKS && n <= LOGBLOCKS
    }

    /** The fields hold machine state s. */
    ghost predicate Holds(s: State)
      reads `disk, `cache, `n, `outstanding, `committing, block
      requires Shape()
    {
      && s.disk == Parts(l, disk)
      && s.view == Home(l, cache)
      && s.lh == block[..n]
      && s.outstanding == outstanding
      && s.committing == committing
    }

    /** The object has come here by a run of the machine from a formatted disk. */
    ghost predicate Valid()
      reads this, block
    {
      Shape() && IsRun(run) && Holds(Final(run))
    }

    ghost function Phase(): Phase
      reads this, block
      requires Valid()
    {
      Final(run).phase
    }

    lemma Ready()
      requires Valid()
      ensures Readable(Final(run))
    {
      RunAgrees(run);
    }

    /** The entries of the list are home blocks. */
    lemma ReadyAt(i: nat)
      requires Valid() && i < n
      ensures l.IsHome(block[i]) && block[i] in cache
    {
      Ready();
      assert Final(run).lh[i] == block[i];
    }

    constructor (l: Layout, image: Blocks)
      requires DiskFits(l, image) && DecodeHead(image[l.start]) == []
      ensures Valid() && Phase() == Down && disk == image && this.l == l && fresh(block)
    {
      this.l := l;
      disk, cache := image, image;
      block := new nat[LOGBLOCKS];
      n, outstanding, committing := 0, 0, false;
      new;
      run := Boot(Parts(l, disk));
    }

    // --- Disk writes: set the contents of a buffer and bwrite it ---

    method BwriteLog(tail: nat, data: Block)
      requires Shape() && tail < LOGBLOCKS
      modifies `cache, `disk
      ensures Shape() && Home(l, cache) == old(Home(l, cache))
      ensures Parts(l, disk) == old(Parts(l, disk)).(logs := old(Logs(l, disk))[tail := data])
    {
      var b := l.start + 1 + tail;
      LogFits(l, disk, cache, tail, b, data);
      cache, disk := cache[b := data], disk[b := data];
    }

    method BwriteHome(b: nat, data: Block)
      requires Shape() && l.IsHome(b)
      modifies `cache, `disk
      ensures Shape() && Home(l, cache) == old(Home(l, cache))[b := data]
      ensures Parts(l, disk) == old(Parts(l, disk)).(home := old(Home(l, disk))[b := data])
    {
      WriteHomeBlock(l, disk, b, data);
      HomeFits(l, disk, cache, b, data);
      HomeSet(l, cache, b, data);
      cache, disk := cache[b := data], disk[b := data];
    }

    /** write_head: copy the list into the header block and write it. */
    method WriteHead()
      requires Shape()
      modifies `cache, `disk
      ensures Shape() && Home(l, cache) == old(Home(l, cache))
      ensures Parts(l, disk) == old(Parts(l, disk)).(head := block[..n])
    {
      var hb := cache[l.start];
      hb := hb[0 := n];
      var i := 0;
      while i < n
        invariant i <= n && |hb| == |cache[l.start]| && hb[0] == n
        invariant forall k :: 0 <= k < i ==> hb[1 + k] == block[k]
      {
        hb := hb[1 + i := block[i]];
        i := i + 1;
      }
      WriteHeadBlock(l, disk, hb, block[..n]);
      cache, disk := cache[l.start := hb], disk[l.start := hb];
      assert Home(l, cache) == old(Home(l, cache));
    }

    // --- Commit ---

    method CopyToLogBlock(ghost s: State, tail: nat)
      requires Shape() && Readable(s) && Holds(s)
      requires s.phase == Logging(tail) && tail < n && block[tail] in cache && l.IsHome(block[tail])
      modifies `disk, `cache
      ensures Shape() && Proceed(s).Ok? && Holds(Proceed(s).state)
    {
      BwriteLog(tail, cache[block[tail]]);
    }

    method LogBlock(tail: nat)
      requires Valid() && Phase() == Logging(tail) && tail < n
      modifies `disk, `cache, `run
      ensures Valid() && Phase() == Logging(tail + 1) && run == Then(old(run), Advance)
    {
      Ready();
      ReadyAt(tail);
      NextBlock(run, tail);
      CopyToLogBlock(Final(run), tail);
      run := Then(run, Advance);
    }

    method WriteLog()
      requires Valid() && Phase() == Logging(0)
      modifies `disk, `cache, `run
      ensures Valid() && Phase() == Logging(n) && Follows(run, old(run))
    {
      var tail := 0;
      while tail < n
        invariant tail <= n && Valid() && Phase() == Logging(tail) && Follows(run, old(run))
      {
        LogBlock(tail);
        tail := tail + 1;
      }
    }

    method CopyHome(ghost s: State, tail: nat)
      requires Shape() && Readable(s) && Holds(s)
      requires s.phase.Installing? && s.phase.tail == tail < n && l.IsHome(block[tail])
      modifies `disk, `cache
      ensures Shape() && Proceed(s).Ok? && Holds(Proceed(s).state)
    {
      var data := cache[l.start + 1 + tail];
      assert data == s.disk.logs[tail];
      ghost var t := Proceed(s).state;
      assert t.lh == s.lh && t.view == s.view[s.lh[tail] := data];
      assert t.disk == s.disk.(home := s.disk.home[s.lh[tail] := data]);
      BwriteHome(block[tail], data);
    }

    method InstallBlock(tail: nat, recovering: bool)
      requires Valid() && Phase() == Installing(tail, recovering) && tail < n
      modifies `disk, `cache, `run
      ensures Valid() && Phase() == Installing(tail + 1, recovering) && run == Then(old(run), Advance)
    {
      Ready();
      ReadyAt(tail);
      NextBlock(run, tail);
      CopyHome(Final(run), tail);
      run := Then(run, Advance);
    }

    method InstallTrans(recovering: bool)
      requires Valid() && Phase() == Installing(0, recovering)
      modifies `disk, `cache, `run
      ensures Valid() && Phase() == Installing(n, recovering) && Follows(run, old(run))
    {
      var tail := 0;
      ghost var q := run;
      while tail < n
        invariant tail <= n && Valid() && Phase() == Installing(tail, recovering) && Follows(run, q)
      {
        InstallBlock(tail, recovering);
        tail := tail + 1;
      }
    }

    /** write_head with the list as it stands: the real commit. */
    method CommitHead()
      requires Valid() && Phase() == Logging(n) && n > 0
      modifies `disk, `cache, `run
      ensures Valid() && Phase() == Installing(0, false) && run == Then(old(run), Advance)
    {
      Ready();
      WriteHead();
      run := Then(run, Advance);
    }

    /** log.lh.n = 0; write_head(): erase the transaction. */
    method EraseHead(ghost recovering: bool)
      requires Valid() && Phase() == Installing(n, recovering)
      modifies `disk, `cache, `run, `n
      ensures Valid() && n == 0 && run == Then(old(run), Advance)
      ensures Phase() == if recovering then Running else Committed
    {
      Ready();
      n := 0;
      WriteHead();
      run := Then(run, Advance);
    }

    /** The writes that were pending become durable and reach their home blocks. */
    method Commit()
      requires Valid() && Phase() == Logging(0)
      modifies `disk, `cache, `run, `n
      ensures Valid() && Phase() == Committed && n == 0 && Follows(run, old(run))
      ensures Home(l, disk) == History(run).durable == old(History(run)).pending
    {
      if n > 0 {
        WriteLog();
        CommitHead();
        ghost var written := run;
        InstallTrans(false);
        EraseHead(false);
        FollowsMore(run, written, old(run));
      } else {
        Ready();
        run := Then(run, Advance);
      }
      CommitInstalls(run, old(run));
    }

    // --- System calls ---

    /** begin_op's test; when it is false the caller sleeps and tries again. */
    method BeginOp(ghost op: nat) returns (admitted: bool)
      requires Valid() && Allowed(Final(run), Step.BeginOp(op))
      modifies `outstanding, `run
      ensures Valid()
      ensures admitted <==> !committing && n + (old(outstanding) + 1) * MAXOPBLOCKS <= LOGBLOCKS
      ensures run == if admitted then Then(old(run), Step.BeginOp(op)) else old(run)
    {
      if committing || n + (outstanding + 1) * MAXOPBLOCKS > LOGBLOCKS {
        return false;
      }
      Ready();
      outstanding := outstanding + 1;
      run := Then(run, Step.BeginOp(op));
      return true;
    }

    /** log_write's loop: find an entry that absorbs the write, or add one. */
    method AddEntry(b: nat)
      requires n < block.Length
      modifies `n, block
      ensures n <= old(n) + 1
      ensures block[..n] == var lh := old(block[..n]); if Slot(lh, b) < |lh| then lh else lh + [b]
    {
      var i := 0;
      while i < n && block[i] != b
        invariant i <= n
        invariant forall k :: 0 <= k < i ==> block[k] != b
      {
        i := i + 1;
      }
      assert i == Slot(block[..n], b);
      block[i] := b;
      if i == n {
        n := n + 1;
      }
    }

    /** A caller that changes block b under its buffer lock and hands it to log_write. */
    method LogWrite(ghost op: nat, b: nat, data: Block)
      requires Valid() && Allowed(Final(run), Step.LogWrite(op, b, data))
      modifies `cache, `n, `run, block
      ensures Valid() && run == Then(old(run), Step.LogWrite(op, b, data))
      ensures cache == old(cache)[b := data]
    {
      Ready();
      MayWrite(run, Step.LogWrite(op, b, data));    // neither panic is reached
      ChangeAndList(Final(run), op, b, data);
      run := Then(run, Step.LogWrite(op, b, data));
    }

    method ChangeAndList(ghost s: State, ghost op: nat, b: nat, data: Block)
      requires Shape() && Holds(s) && op in s.spent && n < LOGBLOCKS && outstanding >= 1 && l.IsHome(b)
      modifies `cache, `n, block
      ensures Shape() && cache == old(cache)[b := data]
      ensures Holds(Write(s, op, b, data).state)
    {
      WriteIs(s, op, b, data);
      HomeSet(l, cache, b, data);
      CacheSet(l, disk, cache, b, data);
      cache := cache[b := data];
      AddEntry(b);
    }

    method EndOp(ghost op: nat)
      requires Valid() && Allowed(Final(run), Step.EndOp(op))
      modifies `disk, `cache, `n, `outstanding, `committing, `run
      ensures Valid() && outstanding == old(outstanding) - 1
      ensures Follows(run, Then(old(run), Step.EndOp(op)))
      ensures outstanding == 0 ==> Phase() == Running && !committing && n == 0
      ensures outstanding == 0 ==> Home(l, disk) == History(run).durable == old(History(run)).pending
    {
      var doCommit := LeaveOp(op);
      if doCommit {
        Commit();
        Reopen();
      }
    }

    /** The first critical section of end_op. */
    method LeaveOp(ghost op: nat) returns (doCommit: bool)
      requires Valid() && Allowed(Final(run), Step.EndOp(op))
      modifies `outstanding, `committing, `run
      ensures Valid() && run == Then(old(run), Step.EndOp(op)) && History(run) == old(History(run))
      ensures outstanding == old(outstanding) - 1 && doCommit == (outstanding == 0)
      ensures doCommit ==> Phase() == Logging(0)
    {
      Ready();
      NoPanic(run, Step.EndOp(op));
      doCommit := false;
      outstanding := outstanding - 1;
      assert !committing;                           // the panic is not reached
      if outstanding == 0 {
        doCommit := true;
        committing := true;
      }
      run := Then(run, Step.EndOp(op));
    }

    /** The second critical section of end_op. */
    method Reopen()
      requires Valid() && Phase() == Committed
      modifies `committing, `run
      ensures Valid() && Phase() == Running && !committing
      ensures run == Then(old(run), Advance) && History(run) == old(History(run))
    {
      Ready();
      committing := false;
      run := Then(run, Advance);
    }

    // --- Power failure and recovery ---

    /** Memory is lost, the disk stays. */
    method PowerFails()
      requires Valid()
      modifies `cache, `n, `outstanding, `committing, `run
      ensures Valid() && Phase() == Down && run == Then(old(run), Crash)
    {
      Ready();
      cache, n, outstanding, committing := disk, 0, 0, false;
      run := Then(run, Crash);
    }

    /** read_head's loop: take the list from the header block. */
    method LoadHead(hb: Block)
      requires HeadFits(hb) && block.Length == LOGBLOCKS
      modifies `n, block
      ensures n <= LOGBLOCKS && block[..n] == DecodeHead(hb)
    {
      n := hb[0];
      var i := 0;
      while i < n
        modifies block
        invariant i <= n
        invariant forall k :: 0 <= k < i ==> block[k] == hb[1 + k]
      {
        block[i] := hb[1 + i];
        i := i + 1;
      }
    }

    method ReadHead()
      requires Valid() && Phase() == Down
      modifies `n, `run, block
      ensures Valid() && Phase() == Installing(0, true) && run == Then(old(run), Advance)
    {
      Ready();
      LoadHead(cache[l.start]);
      run := Then(run, Advance);
    }

    /** A recovery that is not interrupted leaves the durable contents at home. */
    method RecoverFromLog()
      requires Valid() && Phase() == Down
      modifies `disk, `cache, `run, `n, block
      ensures Valid() && Phase() == Running && n == 0 && Follows(run, old(run))
      ensures Home(l, disk) == History(run).durable == old(History(run)).durable
    {
      ReadHead();
      ghost var read := run;
      InstallTrans(true);
      EraseHead(true);
      FollowsMore(run, read, old(run));
      QuietKeeps(run, old(run));
      CrashAtomicity(run);
    }
  }
}
