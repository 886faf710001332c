/**
  filewrite() over the log: what a power failure leaves of a file.

  The transactions of FileSystem.Filewrite are run on the machine of module Log, one after the
  other: begin_op, a log_write for each recorded call, end_op.  Other operations run at the same
  time and share commits with them; they leave the blocks `own` alone.  The power may fail
  between any two steps.
 */
module CrashSafety {
  import opened Collections
  import opened Params
  import L = Log
  import B = Bitmap
  import opened Inodes
  import opened Files
  import opened Image
  import opened FileSystem

  // --- Blocks as the log has them ---

  /** The inodes of a block, one after the other: the size, then the addresses. */
  function NodeWords(ns: seq<Inode>): L.Block {
    if ns == [] then [] else NodeWords(ns[..|ns| - 1]) + ([ns[|ns| - 1].size as int] + ns[|ns| - 1].addrs)
  }

  function Words(r: Raw): L.Block {
    match r
    case Nodes(ns) => NodeWords(ns)
    case Bits(m) => seq(BSIZE, k requires 0 <= k < BSIZE => m[k] as int)
    case Bytes(d) => d
  }

  lemma {:induction false} NodesApart(a: seq<Inode>, b: seq<Inode>)
    requires |a| == |b| && NodeWords(a) == NodeWords(b)
    ensures a == b
  {
    var n := |a| - 1;
    if n >= 0 {
      NodesLength(a[..n], b[..n]);
      var m := |NodeWords(a[..n])|;
      assert NodeWords(a)[..m] == NodeWords(a[..n]) && NodeWords(b)[..m] == NodeWords(b[..n]);
      NodesApart(a[..n], b[..n]);
      assert NodeWords(a)[m] == a[n].size && NodeWords(b)[m] == b[n].size;
      assert NodeWords(a)[m + 1..] == a[n].addrs && NodeWords(b)[m + 1..] == b[n].addrs;
    }
  }

  lemma {:induction false} NodesLength(a: seq<Inode>, b: seq<Inode>)
    requires |a| == |b|
    ensures |NodeWords(a)| == |NodeWords(b)|
  {
    if a != [] { NodesLength(a[..|a| - 1], b[..|b| - 1]); }
  }

  /** Contents of one kind. */
  predicate Alike(a: Raw, b: Raw) {
    (a.Nodes? && b.Nodes? && |a.nodes| == |b.nodes|) || (a.Bits? && b.Bits?) || (a.Bytes? && b.Bytes?)
  }

  /** Different blocks of one kind are written differently. */
  lemma WordsApart(a: Raw, b: Raw)
    requires Words(a) == Words(b)
    requires Alike(a, b)
    ensures a == b
  {
    if a.Nodes? {
      NodesApart(a.nodes, b.nodes);
    } else if a.Bits? {
      forall k | 0 <= k < BSIZE ensures a.bits[k] == b.bits[k] {
        assert Words(a)[k] == a.bits[k] as int && Words(b)[k] == b.bits[k] as int;
      }
      assert a.bits == b.bits;
    }
  }

  /** Of the blocks `own`, the home blocks hold those of the image. */
  ghost predicate Matches(home: map<nat, L.Block>, im: map<nat, Raw>, own: set<nat>) {
    forall b :: b in own && b in im ==> b in home && home[b] == Words(im[b])
  }

  /** The words of a block determine its contents. */
  lemma MatchesOnce(home: map<nat, L.Block>, im: map<nat, Raw>, jm: map<nat, Raw>, own: set<nat>, b: nat)
    requires Matches(home, im, own) && Matches(home, jm, own) && b in own && b in im && b in jm && Alike(im[b], jm[b])
    ensures jm[b] == im[b]
  {
    WordsApart(jm[b], im[b]);
  }

  lemma MatchesWrite(home: map<nat, L.Block>, im: map<nat, Raw>, own: set<nat>, ws: seq<Write>, n: nat)
    requires n < |ws| && Matches(home, Replay(im, ws[..n]), own)
    ensures Matches(home[ws[n].b := Words(ws[n].data)], Replay(im, ws[..n + 1]), own)
  {
    assert ws[..n + 1][..n] == ws[..n];
  }

  // --- The transactions as steps of the log ---

  /** How far filewrite() is: k transactions have ended, and n writes of an open one are done. */
  datatype Stage = Stage(k: nat, n: nat, open: bool)

  /** The log's step writes what the file system gave to log_write. */
  predicate Is(b: nat, data: L.Block, w: Write) {
    b == w.b && data == Words(w.data)
  }

  /** A step of another operation; those of filewrite() are called 0. */
  predicate Foreign(step: L.Step, own: set<nat>) {
    match step
    case BeginOp(op) => op != 0
    case LogWrite(op, b, _) => op != 0 && b !in own
    case EndOp(op) => op != 0
    case _ => false
  }

  /** The step may be the one that leads to stage g. */
  ghost predicate Leads(txs: seq<Tx>, own: set<nat>, step: L.Step, g: Stage) {
    || Foreign(step, own)
    || match step
       case BeginOp(op) => op == 0 && g.open && g.n == 0
       case LogWrite(op, b, data) =>
         op == 0 && g.open && g.k < |txs| && 0 < g.n <= |txs[g.k].writes| && Is(b, data, txs[g.k].writes[g.n - 1])
       case EndOp(op) => op == 0 && !g.open && 0 < g.k <= |txs|
       case Advance => true
       case Crash => false
  }

  /** The stage before the step. */
  ghost function Prior(txs: seq<Tx>, own: set<nat>, step: L.Step, g: Stage): Stage
    requires Leads(txs, own, step, g)
  {
    if Foreign(step, own) then g
    else
      match step
      case BeginOp(_) => Stage(g.k, 0, false)
      case LogWrite(_, _, _) => g.(n := g.n - 1)
      case EndOp(_) => Stage(g.k - 1, |txs[g.k - 1].writes|, true)
      case Advance => g
  }

  ghost predicate StageOk(txs: seq<Tx>, g: Stage) {
    if g.open then g.k < |txs| && g.n <= |txs[g.k].writes| else g.k <= |txs| && g.n == 0
  }

  /**
    Run q continues run r with the transactions txs, up to stage g: begin_op, the calls of
    log_write in their order, end_op.  Steps of other operations and the disk writes of commit
    come at any time.
   */
  ghost predicate Carries(r: L.Run, q: L.Run, txs: seq<Tx>, own: set<nat>, g: Stage) {
    && StageOk(txs, g)
    && if q == r then g == Stage(0, 0, false)
       else q.Then? && Leads(txs, own, q.step, g) && Carries(r, q.before, txs, own, Prior(txs, own, q.step, g))
  }

  /** The number of transactions that had ended when the header was last written. */
  ghost function Committed(r: L.Run, q: L.Run, txs: seq<Tx>, own: set<nat>, g: Stage): nat
    requires L.IsRun(q) && Carries(r, q, txs, own, g)
  {
    if q == r then 0
    else if L.CommitPoint(L.Final(q.before), q.step) then g.k
    else Committed(r, q.before, txs, own, Prior(txs, own, q.step, g))
  }

  /** The log lists the blocks of ws, and the operation is charged for no more than these. */
  ghost predicate Lists(s: L.State, ws: seq<Write>) {
    && s.phase.Running? && 0 in s.spent && s.spent[0] <= |Touched(ws)|
    && forall b :: b in Touched(ws) ==> b in s.lh
  }

  /** What is durable, those of d transactions, what is pending, and what the log lists at stage g. */
  ghost predicate Stands(a: L.Atomic, s: L.State, base: map<nat, Raw>, txs: seq<Tx>, own: set<nat>, g: Stage, d: nat) {
    && L.Up(s) && StageOk(txs, g) && d <= g.k && base.Keys <= s.view.Keys
    && Matches(a.durable, Before(base, txs, d), own)
    && if g.open then
         && Lists(s, txs[g.k].writes[..g.n])
         && Matches(a.pending, Replay(Before(base, txs, g.k), txs[g.k].writes[..g.n]), own)
       else 0 !in s.spent && Matches(a.pending, Before(base, txs, g.k), own)
  }

  /** Each transaction turns the blocks before it into those after it. */
  ghost predicate Turns(base: map<nat, Raw>, txs: seq<Tx>, k: nat)
    requires k < |txs|
  {
    txs[k].image == Replay(Before(base, txs, k), txs[k].writes)
  }

  ghost predicate Chained(base: map<nat, Raw>, txs: seq<Tx>) {
    forall k {:trigger Turns(base, txs, k)} :: 0 <= k < |txs| ==> Turns(base, txs, k)
  }

  // --- Step by step ---

  lemma BeginStands(a: L.Atomic, s: L.State, base: map<nat, Raw>, txs: seq<Tx>, own: set<nat>, k: nat, d: nat)
    requires Stands(a, s, base, txs, own, Stage(k, 0, false), d) && k < |txs| && L.Begin(s, 0).Ok? && L.Reservation(s)
    ensures Stands(a, L.Begin(s, 0).state, base, txs, own, Stage(k, 0, true), d)
  {
    assert txs[k].writes[..0] == [];
  }

  lemma WriteLists(s: L.State, ws: seq<Write>, n: nat, data: L.Block)
    requires n < |ws| && Lists(s, ws[..n]) && L.Write(s, 0, ws[n].b, data).Ok?
    ensures Lists(L.Write(s, 0, ws[n].b, data).state, ws[..n + 1])
  {
    var b, had := ws[n].b, Touched(ws[..n]);
    assert ws[..n + 1][..n] == ws[..n];
    if L.Slot(s.lh, b) < |s.lh| {
      SubsetSize(had, had + {b});
    } else {
      assert b !in s.lh && |had + {b}| == |had| + 1;
    }
  }

  lemma WriteStands(a: L.Atomic, s: L.State, base: map<nat, Raw>, txs: seq<Tx>, own: set<nat>, k: nat, n: nat,
                    step: L.Step, g: Stage, d: nat)
    requires Stands(a, s, base, txs, own, Stage(k, n, true), d) && n < |txs[k].writes| && g == Stage(k, n + 1, true)
    requires step == L.LogWrite(0, txs[k].writes[n].b, Words(txs[k].writes[n].data))
    requires L.Readable(s) && L.Allowed(s, step) && L.Do(s, step).Ok?
    ensures Stands(L.Effect(a, s, step), L.Do(s, step).state, base, txs, own, g, d)
  {
    var w := txs[k].writes[n];
    WriteLists(s, txs[k].writes, n, Words(w.data));
    MatchesWrite(a.pending, Before(base, txs, k), own, txs[k].writes, n);
  }

  lemma EndStands(a: L.Atomic, s: L.State, base: map<nat, Raw>, txs: seq<Tx>, own: set<nat>, k: nat, n: nat,
                  g: Stage, d: nat)
    requires k < |txs| && n == |txs[k].writes| && Stands(a, s, base, txs, own, Stage(k, n, true), d)
    requires Turns(base, txs, k) && g == Stage(k + 1, 0, false) && L.End(s, 0).Ok?
    ensures Stands(a, L.End(s, 0).state, base, txs, own, g, d)
  {
    assert txs[k].writes[..n] == txs[k].writes;
  }

  lemma ForeignLists(s: L.State, step: L.Step, own: set<nat>, ws: seq<Write>)
    requires Lists(s, ws) && Foreign(step, own) && L.Readable(s) && L.Allowed(s, step)
    requires L.Do(s, step).Ok? && L.Reservation(L.Do(s, step).state)
    ensures Lists(L.Do(s, step).state, ws)
  {
    var t := L.Do(s, step).state;
    assert 0 in t.spent && t.spent[0] == s.spent[0];
  }

  /** Another operation leaves the open transaction and the blocks `own` alone. */
  lemma ForeignStands(a: L.Atomic, s: L.State, base: map<nat, Raw>, txs: seq<Tx>, own: set<nat>, step: L.Step,
                      g: Stage, d: nat)
    requires Stands(a, s, base, txs, own, g, d) && Foreign(step, own) && L.Readable(s) && L.Allowed(s, step)
    requires L.Do(s, step).Ok? && L.Reservation(L.Do(s, step).state)
    ensures Stands(L.Effect(a, s, step), L.Do(s, step).state, base, txs, own, g, d)
  {
    if g.open {
      ForeignLists(s, step, own, txs[g.k].writes[..g.n]);
    }
  }

  /** Only the writing of the header makes transactions durable, all that have ended. */
  lemma AdvanceStands(a: L.Atomic, s: L.State, base: map<nat, Raw>, txs: seq<Tx>, own: set<nat>, g: Stage, d: nat)
    requires Stands(a, s, base, txs, own, g, d) && L.Readable(s) && L.Proceed(s).Ok?
    ensures var e := if L.CommitPoint(s, L.Advance) then g.k else d;
      Stands(L.Effect(a, s, L.Advance), L.Proceed(s).state, base, txs, own, g, e)
  {
  }

  lemma StepStands(a: L.Atomic, s: L.State, base: map<nat, Raw>, txs: seq<Tx>, own: set<nat>, step: L.Step, g: Stage,
                   d: nat)
    requires Chained(base, txs) && StageOk(txs, g) && Leads(txs, own, step, g)
    requires Stands(a, s, base, txs, own, Prior(txs, own, step, g), d)
    requires L.Inv(s) && L.Allowed(s, step) && L.Do(s, step).Ok? && L.Reservation(L.Do(s, step).state)
    ensures var e := if L.CommitPoint(s, step) then g.k else d;
      Stands(L.Effect(a, s, step), L.Do(s, step).state, base, txs, own, g, e)
  {
    if Foreign(step, own) {
      ForeignStands(a, s, base, txs, own, step, g, d);
    } else {
      match step
      case BeginOp(_) =>
        assert g == Stage(g.k, 0, true) && L.Effect(a, s, step) == a && L.Do(s, step) == L.Begin(s, 0);
        BeginStands(a, s, base, txs, own, g.k, d);
      case LogWrite(_, _, _) =>
        var n := g.n - 1;
        WriteStands(a, s, base, txs, own, g.k, n, step, g, d);
      case EndOp(_) =>
        var k := g.k - 1;
        assert Turns(base, txs, k) && L.Effect(a, s, step) == a && L.Do(s, step) == L.End(s, 0);
        EndStands(a, s, base, txs, own, k, |txs[k].writes|, g, d);
      case Advance =>
        assert L.Do(s, step) == L.Proceed(s);
        AdvanceStands(a, s, base, txs, own, g, d);
    }
  }

  // --- Whole runs ---

  /** filewrite() starts while the blocks `own` are those of `base`, on the disk and for its readers. */
  ghost predicate Starts(r: L.Run, base: map<nat, Raw>, own: set<nat>) {
    && L.IsRun(r) && L.Up(L.Final(r)) && 0 !in L.Final(r).spent && base.Keys <= L.Final(r).view.Keys
    && Matches(L.History(r).durable, base, own) && Matches(L.History(r).pending, base, own)
  }

  lemma {:induction false} CarriesStands(r: L.Run, q: L.Run, base: map<nat, Raw>, txs: seq<Tx>, own: set<nat>, g: Stage)
    requires Starts(r, base, own) && L.IsRun(q) && Chained(base, txs) && Carries(r, q, txs, own, g)
    ensures Stands(L.History(q), L.Final(q), base, txs, own, g, Committed(r, q, txs, own, g))
  {
    if q != r {
      var h := Prior(txs, own, q.step, g);
      CarriesStands(r, q.before, base, txs, own, h);
      L.RunAgrees(q.before);
      L.RunAgrees(q);
      StepStands(L.History(q.before), L.Final(q.before), base, txs, own, q.step, g,
        Committed(r, q.before, txs, own, h));
    }
  }

  /** The transactions of filewrite() fit: the log takes every call of log_write, at every stage. */
  lemma LogTakes(r: L.Run, q: L.Run, l: Layout, f: Fs, base: map<nat, Raw>, i: nat, off: nat, src: seq<Byte>,
                 txs: seq<Tx>, own: set<nat>, g: Stage)
    requires Starts(r, base, own) && L.IsRun(q) && Steps(l, f, base, i, off, src, txs) && Carries(r, q, txs, own, g)
    requires g.open && g.n < |txs[g.k].writes|
    ensures var w := txs[g.k].writes[g.n]; L.IsRun(L.Then(q, L.LogWrite(0, w.b, Words(w.data))))
  {
    StepsChained(l, f, base, i, off, src, txs);
    CarriesStands(r, q, base, txs, own, g);
    assert StepOk(l, f, base, i, off, src, txs, g.k);
    BeforeKeys(l, f, base, i, off, src, txs, g.k);
    L.NoPanic(q, L.LogWrite(0, txs[g.k].writes[g.n].b, Words(txs[g.k].writes[g.n].data)));
  }

  /** The transactions write no block that was not there. */
  lemma {:induction false} BeforeKeys(l: Layout, f: Fs, base: map<nat, Raw>, i: nat, off: nat, src: seq<Byte>,
                                      txs: seq<Tx>, k: nat)
    requires Steps(l, f, base, i, off, src, txs) && k <= |txs|
    ensures Before(base, txs, k).Keys == base.Keys
  {
    if k > 0 {
      BeforeKeys(l, f, base, i, off, src, txs, k - 1);
      assert StepOk(l, f, base, i, off, src, txs, k - 1);
      ReplayKeys(Before(base, txs, k - 1), txs[k - 1].writes);
    }
  }

  lemma {:induction false} ReplayKeys(base: map<nat, Raw>, ws: seq<Write>)
    requires forall x :: 0 <= x < |ws| ==> ws[x].b in base
    ensures Replay(base, ws).Keys == base.Keys
  {
    if ws != [] {
      var n := |ws| - 1;
      ReplayKeys(base, ws[..n]);
      assert ws[n].b in base;
    }
  }

  lemma StepsChained(l: Layout, f: Fs, base: map<nat, Raw>, i: nat, off: nat, src: seq<Byte>, txs: seq<Tx>)
    requires Steps(l, f, base, i, off, src, txs)
    ensures Chained(base, txs)
  {
    forall k | 0 <= k < |txs| ensures Turns(base, txs, k) {
      assert StepOk(l, f, base, i, off, src, txs, k);
    }
  }

  /** In run p the power fails after run q, recovery starts, and may itself fail and start again. */
  predicate Recovers(p: L.Run, q: L.Run) {
    p.Then? && if p.before == q then p.step.Crash? else (p.step.Crash? || p.step.Advance?) && Recovers(p.before, q)
  }

  lemma {:induction false} RecoversKeeps(q: L.Run, p: L.Run)
    requires L.IsRun(q) && L.IsRun(p) && Recovers(p, q)
    ensures L.History(p).durable == L.History(q).durable && !L.Final(p).phase.Logging?
  {
    if p.before != q { RecoversKeeps(q, p.before); }
  }

  /** A recovery that has ended leaves what was durable before the failure. */
  lemma RecoversDurable(q: L.Run, p: L.Run)
    requires L.IsRun(q) && L.IsRun(p) && Recovers(p, q) && L.Final(p).phase.Running?
    ensures L.Final(p).disk.home == L.History(q).durable
  {
    RecoversKeeps(q, p);
    L.RunAgrees(p);
    var d := L.Final(p).disk;
    L.RecoveredIs(d, d.home);
  }

  /**
    The power fails at any stage of filewrite(), among any other operations, and recovery,
    however often it fails itself, in the end leaves of the blocks `own` those of before, or
    those of files in which the first chunks have been written and nothing else has changed:
    the chunks of the transactions that had ended when the header was last written.
   */
  lemma CrashedWrite(r: L.Run, q: L.Run, p: L.Run, l: Layout, f: Fs, base: map<nat, Raw>, i: nat, off: nat,
                     src: seq<Byte>, txs: seq<Tx>, own: set<nat>, g: Stage) returns (k: nat)
    requires Starts(r, base, own) && L.IsRun(q) && Steps(l, f, base, i, off, src, txs) && Carries(r, q, txs, own, g)
    requires L.IsRun(p) && Recovers(p, q) && L.Final(p).phase.Running?
    ensures k == Committed(r, q, txs, own, g) && k <= g.k <= |txs|
    ensures Matches(L.Final(p).disk.home, Before(base, txs, k), own)
    ensures k > 0 ==> Shows(l, txs[k - 1]) && Wrote(f, txs[k - 1].fs, i, off, src, txs[k - 1].done, txs[k - 1].done)
    ensures k > 0 && off <= f.inodes[i].size ==>
      Data(txs[k - 1].fs, i) == Splice(Data(f, i), off, src[..txs[k - 1].done])
  {
    StepsChained(l, f, base, i, off, src, txs);
    CarriesStands(r, q, base, txs, own, g);
    RecoversDurable(q, p);
    k := Committed(r, q, txs, own, g);
    if k > 0 {
      assert StepOk(l, f, base, i, off, src, txs, k - 1);
      if off <= f.inodes[i].size {
        StoredSplice(f, txs[k - 1].fs, i, off, src, txs[k - 1].done);
      }
    }
  }

  // --- What is read from the disk then ---

  /** The files before all transactions, or after the first k of them. */
  function FilesAt(f: Fs, bitmap: B.Map, base: map<nat, Raw>, txs: seq<Tx>, k: nat): Tx
    requires k <= |txs|
  {
    if k == 0 then Tx([], base, f, bitmap, 0) else txs[k - 1]
  }

  /** The blocks that make up file i of tx are among `own`. */
  ghost predicate Covers(l: Layout, tx: Tx, i: nat, own: set<nat>) {
    && i in tx.fs.inodes && l.Fits(tx.bitmap, |tx.fs.blocks|) && l.InodeBlock(i) in own && l.InodeBlock(i) < l.bmapstart
    && forall s :: 0 <= s < SLOTS && Addr(tx.fs, i, s) != 0 ==>
         l.first <= Addr(tx.fs, i, s) < |tx.fs.blocks| && Addr(tx.fs, i, s) in own
  }

  /** The disk can be read as the files of z. */
  ghost predicate ReadsAs(l: Layout, home: map<nat, L.Block>, own: set<nat>, tx: Tx, z: Tx, i: nat) {
    && Shows(l, z) && Matches(home, z.image, own) && i in z.fs.inodes
    && |z.fs.blocks| == |tx.fs.blocks| && |z.bitmap| == |tx.bitmap|
  }

  lemma BlockRead(l: Layout, home: map<nat, L.Block>, own: set<nat>, tx: Tx, z: Tx, i: nat, b: nat)
    requires Shows(l, tx) && Matches(home, tx.image, own) && ReadsAs(l, home, own, tx, z, i)
    requires l.Fits(tx.bitmap, |tx.fs.blocks|) && b in own && l.inodestart <= b < |tx.fs.blocks|
    ensures Content(l, Disk(z.fs.inodes, z.bitmap, z.fs.blocks), b) ==
      Content(l, Disk(tx.fs.inodes, tx.bitmap, tx.fs.blocks), b)
  {
    assert tx.image[b] == Content(l, Disk(tx.fs.inodes, tx.bitmap, tx.fs.blocks), b);
    assert z.image[b] == Content(l, Disk(z.fs.inodes, z.bitmap, z.fs.blocks), b);
    MatchesOnce(home, tx.image, z.image, own, b);
  }

  lemma InodeRead(l: Layout, home: map<nat, L.Block>, own: set<nat>, tx: Tx, z: Tx, i: nat)
    requires Shows(l, tx) && Matches(home, tx.image, own) && ReadsAs(l, home, own, tx, z, i) && Covers(l, tx, i, own)
    ensures z.fs.inodes[i] == tx.fs.inodes[i]
  {
    BlockRead(l, home, own, tx, z, i, l.InodeBlock(i));
    var q := i / IPB;
    assert NodesIn(z.fs.inodes, q)[i % IPB] == NodesIn(tx.fs.inodes, q)[i % IPB];
    assert q * IPB + i % IPB == i;
  }

  lemma AddrRead(l: Layout, home: map<nat, L.Block>, own: set<nat>, tx: Tx, z: Tx, i: nat, s: nat)
    requires Shows(l, tx) && Matches(home, tx.image, own) && ReadsAs(l, home, own, tx, z, i) && Covers(l, tx, i, own)
    requires s < SLOTS
    ensures Addr(z.fs, i, s) == Addr(tx.fs, i, s)
    ensures var b := Addr(tx.fs, i, s); b != 0 ==> z.fs.blocks[b] == tx.fs.blocks[b]
  {
    InodeRead(l, home, own, tx, z, i);
    var p := Addr(tx.fs, i, NDIRECT);
    if p != 0 { BlockRead(l, home, own, tx, z, i, p); }
    var b := Addr(tx.fs, i, s);
    if b != 0 { BlockRead(l, home, own, tx, z, i, b); }
  }

  /** Files that the disk can be read as have the same bytes in file i. */
  lemma FileRead(l: Layout, home: map<nat, L.Block>, own: set<nat>, tx: Tx, z: Tx, i: nat)
    requires Shows(l, tx) && Matches(home, tx.image, own) && ReadsAs(l, home, own, tx, z, i) && Covers(l, tx, i, own)
    ensures Data(z.fs, i) == Data(tx.fs, i)
  {
    InodeRead(l, home, own, tx, z, i);
    forall x: nat ensures ByteAt(z.fs, i, x) == ByteAt(tx.fs, i, x) {
      var bn := x / BSIZE;
      if bn < MAXFILE { AddrRead(l, home, own, tx, z, i, if bn < NDIRECT then bn else bn + 1); }
    }
  }

  lemma FilesAre(l: Layout, f: Fs, bitmap: B.Map, base: map<nat, Raw>, i: nat, off: nat, src: seq<Byte>, txs: seq<Tx>,
                 k: nat, tx: Tx)
    requires Steps(l, f, base, i, off, src, txs) && Shows(l, Tx([], base, f, bitmap, 0)) && i in f.inodes
    requires off <= f.inodes[i].size && k <= |txs| && tx == FilesAt(f, bitmap, base, txs, k)
    ensures tx.image == Before(base, txs, k) && Shows(l, tx) && i in tx.fs.inodes && tx.done <= |src|
    ensures Data(tx.fs, i) == Splice(Data(f, i), off, src[..tx.done])
  {
    if k == 0 {
      assert Splice(Data(f, i), off, src[..0]) == Data(f, i);
    } else {
      assert StepOk(l, f, base, i, off, src, txs, k - 1);
      StoredSplice(f, tx.fs, i, off, src, tx.done);
    }
  }

  /**
    Whoever reads file i from the recovered disk, if its blocks are among `own`, reads the old
    file with the chunks of the committed transactions spliced in.
   */
  lemma CrashedFile(r: L.Run, q: L.Run, p: L.Run, l: Layout, f: Fs, bitmap: B.Map, base: map<nat, Raw>, i: nat,
                    off: nat, src: seq<Byte>, txs: seq<Tx>, own: set<nat>, g: Stage, k: nat, z: Tx)
    requires Starts(r, base, own) && L.IsRun(q) && Steps(l, f, base, i, off, src, txs) && Carries(r, q, txs, own, g)
    requires L.IsRun(p) && Recovers(p, q) && L.Final(p).phase.Running? && Shows(l, Tx([], base, f, bitmap, 0))
    requires k == Committed(r, q, txs, own, g) <= |txs| && i in f.inodes && off <= f.inodes[i].size
    requires var tx := FilesAt(f, bitmap, base, txs, k);
      Covers(l, tx, i, own) && ReadsAs(l, L.Final(p).disk.home, own, tx, z, i)
    ensures var done := FilesAt(f, bitmap, base, txs, k).done;
      done <= |src| && Data(z.fs, i) == Splice(Data(f, i), off, src[..done])
  {
    var tx := FilesAt(f, bitmap, base, txs, k);
    var n := CrashedWrite(r, q, p, l, f, base, i, off, src, txs, own, g);
    FilesAre(l, f, bitmap, base, i, off, src, txs, k, tx);
    FileRead(l, L.Final(p).disk.home, own, tx, z, i);
  }
}
