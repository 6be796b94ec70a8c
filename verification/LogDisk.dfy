/** The on-disk redo log of log.c: what a sequence of atomic block writes leaves
    behind, what recovery makes of it, and why commit and recovery are atomic at
    every crash point.  A crash is a prefix of a sequence of writes. */
module LogDisk {

  const LOGSIZE := 30
  const MAXOPBLOCKS := 10
  const WORDS := 128

  /** A disk block seen as 32-bit words, the way write_head and read_head see it. */
  type Block = b: seq<int> | |b| == WORDS witness seq(WORDS, _ => 0)
  type Disk = seq<Block>

  datatype Write = Write(b: int, data: Block)

  /** log.start, log.size, the number of blocks of the device, and the number of buffers in
      the block cache. */
  datatype Geometry = Geometry(start: nat, size: nat, total: nat, nbuf: nat)

  predicate Layout(g: Geometry)
  {
    1 <= g.size && g.start + g.size <= g.total
  }

  predicate InLog(g: Geometry, b: int)
  {
    g.start <= b < g.start + g.size
  }

  predicate IsHome(g: Geometry, b: int)
  {
    0 <= b < g.total && !InLog(g, b)
  }

  // ---------------------------------------------------------------- writes

  function Put(d: Disk, w: Write): (r: Disk)
    ensures |r| == |d|
  {
    if 0 <= w.b < |d| then d[w.b := w.data] else d
  }

  /** The disk after the writes ws, in order. */
  function Perform(d: Disk, ws: seq<Write>): (r: Disk)
    ensures |r| == |d|
  {
    if ws == [] then d else Put(Perform(d, ws[..|ws| - 1]), ws[|ws| - 1])
  }

  /** The last value that ws writes to b, or dflt. */
  function Latest(ws: seq<Write>, b: int, dflt: Block): Block
  {
    if ws == [] then dflt
    else if ws[|ws| - 1].b == b then ws[|ws| - 1].data
    else Latest(ws[..|ws| - 1], b, dflt)
  }

  lemma {:induction false} PerformAt(d: Disk, ws: seq<Write>, b: int)
    requires 0 <= b < |d|
    ensures Perform(d, ws)[b] == Latest(ws, b, d[b])
  {
    if ws != [] {
      PerformAt(d, ws[..|ws| - 1], b);
    }
  }

  lemma {:induction false} PerformConcat(d: Disk, us: seq<Write>, ws: seq<Write>)
    ensures Perform(d, us + ws) == Perform(Perform(d, us), ws)
  {
    if ws == [] {
      assert us + ws == us;
    } else {
      assert (us + ws)[..|us + ws| - 1] == us + ws[..|ws| - 1];
      PerformConcat(d, us, ws[..|ws| - 1]);
    }
  }

  lemma {:induction false} LatestUntouched(ws: seq<Write>, b: int, dflt: Block)
    requires forall i | 0 <= i < |ws| :: ws[i].b != b
    ensures Latest(ws, b, dflt) == dflt
  {
    if ws != [] {
      LatestUntouched(ws[..|ws| - 1], b, dflt);
    }
  }

  lemma {:induction false} LatestTouched(ws: seq<Write>, k: nat, b: int, x: Block, y: Block)
    requires k < |ws| && ws[k].b == b
    ensures Latest(ws, b, x) == Latest(ws, b, y)
  {
    if ws[|ws| - 1].b != b {
      LatestTouched(ws[..|ws| - 1], k, b, x, y);
    }
  }

  /** Writes that miss a block leave it alone. */
  lemma PerformUntouched(d: Disk, ws: seq<Write>, b: int)
    requires 0 <= b < |d|
    requires forall i | 0 <= i < |ws| :: ws[i].b != b
    ensures Perform(d, ws)[b] == d[b]
  {
    PerformAt(d, ws, b);
    LatestUntouched(ws, b, d[b]);
  }

  /** Redoing a sequence of writes after any prefix of it has already been done
      gives what doing it once gives: a redo log may be replayed. */
  lemma Replay(d: Disk, ws: seq<Write>, k: nat)
    requires k <= |ws|
    ensures Perform(Perform(d, ws[..k]), ws) == Perform(d, ws)
  {
    var e := Perform(d, ws[..k]);
    forall b | 0 <= b < |d|
      ensures Perform(e, ws)[b] == Perform(d, ws)[b]
    {
      PerformAt(d, ws, b);
      PerformAt(e, ws, b);
      if i :| 0 <= i < |ws| && ws[i].b == b {
        LatestTouched(ws, i, b, d[b], e[b]);
      } else {
        PerformUntouched(d, ws[..k], b);
      }
    }
  }

  // ------------------------------------------------- header and recovery

  /** The header block after write_head: n and the first n block numbers are
      stored, the rest of the buffer keeps its old words. */
  function Head(was: Block, bs: seq<int>): Block
    requires |bs| < WORDS
  {
    [|bs|] + bs + was[1 + |bs|..]
  }

  /** A header that read_head and install_trans can follow. */
  predicate HeaderOk(g: Geometry, d: Disk)
  {
    && Layout(g)
    && |d| == g.total
    && 0 <= d[g.start][0] <= LOGSIZE
    && d[g.start][0] < g.size
    && forall i | 1 <= i <= d[g.start][0] :: IsHome(g, d[g.start][i])
  }

  /** The block numbers of the committed transaction in the log, if any. */
  function Logged(g: Geometry, d: Disk): (bs: seq<int>)
    requires HeaderOk(g, d)
    ensures |bs| < g.size && |bs| <= LOGSIZE
    ensures forall i | 0 <= i < |bs| :: IsHome(g, bs[i])
  {
    d[g.start][1..1 + d[g.start][0]]
  }

  /** The home writes of install_trans. */
  function Installs(g: Geometry, d: Disk, bs: seq<int>): (ws: seq<Write>)
    requires Layout(g) && |d| == g.total && |bs| < g.size
    ensures |ws| == |bs|
  {
    seq(|bs|, i requires 0 <= i < |bs| => Write(bs[i], d[g.start + 1 + i]))
  }

  /** The disk on which recovery has installed the committed transaction. */
  function Recovered(g: Geometry, d: Disk): Disk
    requires HeaderOk(g, d)
  {
    Perform(d, Installs(g, d, Logged(g, d)))
  }

  /** All the block writes of recover_from_log, in order. */
  function RecoverWrites(g: Geometry, d: Disk): seq<Write>
    requires HeaderOk(g, d)
  {
    Installs(g, d, Logged(g, d)) + [Write(g.start, Head(d[g.start], []))]
  }

  /** The part of the disk the file system sees: every block outside the log. */
  function Home(g: Geometry, d: Disk): (r: Disk)
    ensures |r| == |d|
  {
    seq(|d|, b requires 0 <= b < |d| => if InLog(g, b) then seq(WORDS, _ => 0) else d[b])
  }

  lemma SameHome(g: Geometry, d: Disk, e: Disk)
    requires |d| == |e|
    requires forall b | 0 <= b < |d| && !InLog(g, b) :: d[b] == e[b]
    ensures Home(g, d) == Home(g, e)
  {
  }

  lemma SameHomeAt(g: Geometry, d: Disk, e: Disk, b: int)
    requires Home(g, d) == Home(g, e)
    requires 0 <= b < |d| && !InLog(g, b)
    ensures |e| == |d| && d[b] == e[b]
  {
    assert Home(g, d)[b] == d[b];
    assert |Home(g, e)| == |e|;
    assert Home(g, e)[b] == e[b];
  }

  /** Writes confined to the log region are invisible to the file system. */
  lemma LogWritesInvisible(g: Geometry, d: Disk, ws: seq<Write>)
    requires forall i | 0 <= i < |ws| :: InLog(g, ws[i].b)
    ensures Home(g, Perform(d, ws)) == Home(g, d)
  {
    forall b | 0 <= b < |d| && !InLog(g, b)
      ensures Perform(d, ws)[b] == d[b]
    {
      PerformUntouched(d, ws, b);
    }
    SameHome(g, Perform(d, ws), d);
  }

  /** Home writes leave the whole log region, header included, alone. */
  lemma HomeWritesKeepLog(g: Geometry, d: Disk, ws: seq<Write>)
    requires HeaderOk(g, d)
    requires forall i | 0 <= i < |ws| :: IsHome(g, ws[i].b)
    ensures var e := Perform(d, ws);
            && HeaderOk(g, e) && Logged(g, e) == Logged(g, d)
            && Installs(g, e, Logged(g, e)) == Installs(g, d, Logged(g, d))
            && e[g.start] == d[g.start]
  {
    var e := Perform(d, ws);
    forall b | 0 <= b < |d| && InLog(g, b)
      ensures e[b] == d[b]
    {
      PerformUntouched(d, ws, b);
    }
  }

  /** A disk whose header is clear is its own recovery. */
  lemma ClearRecovers(g: Geometry, d: Disk)
    requires HeaderOk(g, d) && d[g.start][0] == 0
    ensures Recovered(g, d) == d && Logged(g, d) == []
  {
  }

  /** Clearing the header after recovery has installed everything. */
  lemma ClearHead(g: Geometry, d: Disk)
    requires HeaderOk(g, d)
    ensures var e := Put(d, Write(g.start, Head(d[g.start], [])));
            HeaderOk(g, e) && e[g.start][0] == 0 && Home(g, e) == Home(g, d)
  {
    var e := Put(d, Write(g.start, Head(d[g.start], [])));
    SameHome(g, e, d);
  }

  /** Recovery interrupted after any k of its writes recovers, later, to the very
      disk that uninterrupted recovery gives. */
  lemma RecoveryRestartable(g: Geometry, d: Disk, k: nat)
    requires HeaderOk(g, d)
    requires k <= |RecoverWrites(g, d)|
    ensures var e := Perform(d, RecoverWrites(g, d)[..k]);
            && HeaderOk(g, e)
            && Home(g, Recovered(g, e)) == Home(g, Recovered(g, d))
            && (k < |RecoverWrites(g, d)| ==> Recovered(g, e) == Recovered(g, d))
  {
    var ws := Installs(g, d, Logged(g, d));
    var all := RecoverWrites(g, d);
    if k <= |ws| {
      assert all[..k] == ws[..k];
      HomeWritesKeepLog(g, d, ws[..k]);
      Replay(d, ws, k);
    } else {
      assert all[..k] == all;
      assert all[..|all| - 1] == ws;
      HomeWritesKeepLog(g, d, ws);
      ClearHead(g, Perform(d, ws));
      ClearRecovers(g, Perform(d, all));
    }
  }

  /** Recovery that runs to its end leaves a clear log, and a second recovery of
      that disk changes no block the file system can see. */
  lemma RecoveryCompletes(g: Geometry, d: Disk)
    requires HeaderOk(g, d)
    ensures var e := Perform(d, RecoverWrites(g, d));
            && HeaderOk(g, e) && e[g.start][0] == 0
            && Home(g, e) == Home(g, Recovered(g, d))
            && Perform(e, RecoverWrites(g, e)) == e
  {
    var all := RecoverWrites(g, d);
    var ws := Installs(g, d, Logged(g, d));
    assert all[..|all| - 1] == ws;
    HomeWritesKeepLog(g, d, ws);
    ClearHead(g, Perform(d, ws));
    var e := Perform(d, all);
    ClearRecovers(g, e);
    assert RecoverWrites(g, e) == [Write(g.start, Head(e[g.start], []))];
    assert Perform(e, []) == e;
    assert Head(e[g.start], []) == e[g.start];
  }

  /** Any number of recoveries, each cut short by a crash after some number of its
      writes (cuts), before one that completes. */
  function CrashedRecoveries(g: Geometry, d: Disk, cuts: seq<nat>): Disk
    requires HeaderOk(g, d)
    decreases |cuts|
  {
    if cuts == [] then Perform(d, RecoverWrites(g, d))
    else
      var k := if cuts[0] <= |RecoverWrites(g, d)| then cuts[0] else |RecoverWrites(g, d)|;
      RecoveryRestartable(g, d, k);
      CrashedRecoveries(g, Perform(d, RecoverWrites(g, d)[..k]), cuts[1..])
  }

  lemma {:induction false} RecoveryConverges(g: Geometry, d: Disk, cuts: seq<nat>)
    requires HeaderOk(g, d)
    ensures Home(g, CrashedRecoveries(g, d, cuts)) == Home(g, Recovered(g, d))
    decreases |cuts|
  {
    if cuts == [] {
      RecoveryCompletes(g, d);
    } else {
      var k := if cuts[0] <= |RecoverWrites(g, d)| then cuts[0] else |RecoverWrites(g, d)|;
      RecoveryRestartable(g, d, k);
      RecoveryConverges(g, Perform(d, RecoverWrites(g, d)[..k]), cuts[1..]);
    }
  }

  // --------------------------------------------------------------- commit

  /** What commit copies into the log: the log blocks and then the header. */
  function LogPhase(g: Geometry, head: Block, bs: seq<int>, vals: seq<Block>): (ws: seq<Write>)
    requires |vals| == |bs| < WORDS
    ensures |ws| == |bs| + 1
  {
    seq(|bs|, i requires 0 <= i < |bs| => Write(g.start + 1 + i, vals[i]))
    + [Write(g.start, Head(head, bs))]
  }

  function HomePhase(bs: seq<int>, vals: seq<Block>): (ws: seq<Write>)
    requires |vals| == |bs|
    ensures |ws| == |bs|
  {
    seq(|bs|, i requires 0 <= i < |bs| => Write(bs[i], vals[i]))
  }

  /** All the block writes of commit for the blocks bs, whose cached contents are
      vals; head is the header block before. */
  function CommitWrites(g: Geometry, head: Block, bs: seq<int>, vals: seq<Block>): seq<Write>
    requires |vals| == |bs| < WORDS
  {
    if bs == [] then []
    else LogPhase(g, head, bs, vals) + HomePhase(bs, vals) + [Write(g.start, Head(Head(head, bs), []))]
  }

  predicate Committable(g: Geometry, d: Disk, bs: seq<int>)
  {
    && HeaderOk(g, d) && d[g.start][0] == 0
    && |bs| < g.size && |bs| <= LOGSIZE
    && forall i | 0 <= i < |bs| :: IsHome(g, bs[i])
  }

  /** The disk at the commit point: the log is complete, no home block has moved. */
  lemma CommitPoint(g: Geometry, d: Disk, bs: seq<int>, vals: seq<Block>)
    requires Committable(g, d, bs) && |vals| == |bs|
    ensures var e := Perform(d, LogPhase(g, d[g.start], bs, vals));
            && HeaderOk(g, e) && Logged(g, e) == bs && Home(g, e) == Home(g, d)
            && Installs(g, e, bs) == HomePhase(bs, vals)
            && e[g.start] == Head(d[g.start], bs)
  {
    var ws := LogPhase(g, d[g.start], bs, vals);
    var us := ws[..|bs|];
    var f := Perform(d, us);
    var e := Perform(d, ws);
    LogWritesInvisible(g, d, ws);
    forall i | 0 <= i < |bs|
      ensures e[g.start + 1 + i] == vals[i]
    {
      assert us[i].b == g.start + 1 + i;
      PerformAt(d, us, g.start + 1 + i);
      LatestUnique(us, i, d[g.start + 1 + i]);
    }
    assert e[g.start][1..1 + |bs|] == bs;
    forall i | 1 <= i <= e[g.start][0]
      ensures IsHome(g, e[g.start][i])
    {
      assert e[g.start][i] == bs[i - 1];
    }
  }

  lemma {:induction false} LatestUnique(ws: seq<Write>, k: nat, dflt: Block)
    requires k < |ws|
    requires forall i | k < i < |ws| :: ws[i].b != ws[k].b
    ensures Latest(ws, ws[k].b, dflt) == ws[k].data
  {
    if k < |ws| - 1 {
      LatestUnique(ws[..|ws| - 1], k, dflt);
    }
  }

  /** From the header write on, commit is a recovery of the disk at the commit point. */
  lemma CommitSplit(g: Geometry, d: Disk, bs: seq<int>, vals: seq<Block>)
    requires Committable(g, d, bs) && |vals| == |bs| && bs != []
    ensures var lp := LogPhase(g, d[g.start], bs, vals);
            var p := Perform(d, lp);
            && HeaderOk(g, p)
            && CommitWrites(g, d[g.start], bs, vals) == lp + RecoverWrites(g, p)
            && Home(g, Recovered(g, p)) == Home(g, Perform(d, HomePhase(bs, vals)))
  {
    CommitPoint(g, d, bs, vals);
    var p := Perform(d, LogPhase(g, d[g.start], bs, vals));
    HomePhaseCommutes(g, d, p, bs, vals);
  }

  lemma AfterCommitPoint(g: Geometry, d: Disk, bs: seq<int>, vals: seq<Block>, k: nat)
    requires Committable(g, d, bs) && |vals| == |bs|
    requires |bs| < k <= |CommitWrites(g, d[g.start], bs, vals)|
    ensures var e := Perform(d, CommitWrites(g, d[g.start], bs, vals)[..k]);
            && HeaderOk(g, e)
            && Home(g, Recovered(g, e)) == Home(g, Perform(d, HomePhase(bs, vals)))
  {
    CommitSplit(g, d, bs, vals);
    var ws := CommitWrites(g, d[g.start], bs, vals);
    var lp := LogPhase(g, d[g.start], bs, vals);
    var p := Perform(d, lp);
    var rest := RecoverWrites(g, p)[..k - |lp|];
    assert ws[..k] == lp + rest;
    PerformConcat(d, lp, rest);
    RecoveryRestartable(g, p, k - |lp|);
  }

  /** Commit is atomic: cut after any k of its writes, the disk recovers either to
      the old file system (k up to and including the log blocks) or to the old one
      with every logged block replaced (from the header write on). */
  lemma CommitAtomic(g: Geometry, d: Disk, bs: seq<int>, vals: seq<Block>, k: nat)
    requires Committable(g, d, bs) && |vals| == |bs|
    requires k <= |CommitWrites(g, d[g.start], bs, vals)|
    ensures var e := Perform(d, CommitWrites(g, d[g.start], bs, vals)[..k]);
            && HeaderOk(g, e)
            && Home(g, Recovered(g, e)) ==
                 (if k <= |bs| then Home(g, d) else Home(g, Perform(d, HomePhase(bs, vals))))
  {
    var ws := CommitWrites(g, d[g.start], bs, vals);
    ClearRecovers(g, d);
    if bs == [] {
    } else if k <= |bs| {
      var us := ws[..k];
      var e := Perform(d, us);
      LogWritesInvisible(g, d, us);
      PerformUntouched(d, us, g.start);
      ClearRecovers(g, e);
    } else {
      AfterCommitPoint(g, d, bs, vals, k);
    }
  }

  /** Installing on two disks with the same file system gives the same file system. */
  lemma HomePhaseCommutes(g: Geometry, d: Disk, e: Disk, bs: seq<int>, vals: seq<Block>)
    requires |vals| == |bs| && |d| == |e| && Home(g, d) == Home(g, e)
    ensures Home(g, Perform(d, HomePhase(bs, vals))) == Home(g, Perform(e, HomePhase(bs, vals)))
  {
    var ws := HomePhase(bs, vals);
    forall b | 0 <= b < |d| && !InLog(g, b)
      ensures Perform(d, ws)[b] == Perform(e, ws)[b]
    {
      SameHomeAt(g, d, e, b);
      PerformAt(d, ws, b);
      PerformAt(e, ws, b);
    }
    SameHome(g, Perform(d, ws), Perform(e, ws));
  }

  /** A commit that runs to its end has installed everything and cleared the log. */
  lemma CommitCompletes(g: Geometry, d: Disk, bs: seq<int>, vals: seq<Block>)
    requires Committable(g, d, bs) && |vals| == |bs|
    ensures var e := Perform(d, CommitWrites(g, d[g.start], bs, vals));
            && HeaderOk(g, e) && e[g.start][0] == 0
            && Home(g, e) == Home(g, Perform(d, HomePhase(bs, vals)))
  {
    if bs != [] {
      CommitSplit(g, d, bs, vals);
      var lp := LogPhase(g, d[g.start], bs, vals);
      var p := Perform(d, lp);
      PerformConcat(d, lp, RecoverWrites(g, p));
      RecoveryCompletes(g, p);
    }
  }

  lemma {:induction false} PerformTouchedOnce(d: Disk, ws: seq<Write>, i: nat)
    requires i < |ws| && 0 <= ws[i].b < |d| && forall j | 0 <= j < |ws| && j != i :: ws[j].b != ws[i].b
    ensures Perform(d, ws)[ws[i].b] == ws[i].data
    decreases |ws|
  {
    var front := ws[..|ws| - 1];
    if i < |ws| - 1 {
      PerformTouchedOnce(d, front, i);
    }
  }

  /** What a finished commit leaves on the disk, block by block. */
  lemma CommitInstalls(g: Geometry, d: Disk, bs: seq<int>, vals: seq<Block>, b: int)
    requires Committable(g, d, bs) && |vals| == |bs| && IsHome(g, b)
    requires forall i, j | 0 <= i < j < |bs| :: bs[i] != bs[j]
    ensures var e := Perform(d, CommitWrites(g, d[g.start], bs, vals));
            && (b !in bs ==> e[b] == d[b])
            && forall i | 0 <= i < |bs| && bs[i] == b :: e[b] == vals[i]
  {
    var e, ws := Perform(d, CommitWrites(g, d[g.start], bs, vals)), HomePhase(bs, vals);
    CommitCompletes(g, d, bs, vals);
    SameHomeAt(g, e, Perform(d, ws), b);
    if i :| 0 <= i < |bs| && bs[i] == b {
      assert ws[i] == Write(bs[i], vals[i]);
      assert forall j | 0 <= j < |ws| && j != i :: ws[j].b == bs[j] != b;
      PerformTouchedOnce(d, ws, i);
    } else {
      PerformUntouched(d, ws, b);
    }
  }

  /** The log at the commit point, word by word: the header block holds the number of blocks and
      then their numbers, and the blocks behind it their contents, in the same order. */
  lemma LogLayout(g: Geometry, d: Disk, bs: seq<int>, vals: seq<Block>, i: nat)
    requires Committable(g, d, bs) && |vals| == |bs| && i < |bs|
    ensures var e := Perform(d, LogPhase(g, d[g.start], bs, vals));
            && e[g.start][0] == |bs| && e[g.start][1 + i] == bs[i] && e[g.start + 1 + i] == vals[i]
            && forall k | |bs| < k < WORDS :: e[g.start][k] == d[g.start][k]
  {
    var ws := LogPhase(g, d[g.start], bs, vals);
    assert ws[i] == Write(g.start + 1 + i, vals[i]);
    assert forall j | 0 <= j < |bs| :: ws[j].b == g.start + 1 + j;
    PerformTouchedOnce(d, ws, i);
    PerformTouchedOnce(d, ws, |bs|);
  }

  lemma PerformSnoc(d: Disk, ws: seq<Write>, k: nat)
    requires k < |ws|
    ensures Perform(d, ws[..k + 1]) == Put(Perform(d, ws[..k]), ws[k])
  {
    assert ws[..k + 1][..k] == ws[..k];
  }

  /** What the committing thread reads back from the disk on its way: the header it
      has to rewrite and, once the log is complete, the blocks it has to install. */
  lemma CommitStages(g: Geometry, d: Disk, bs: seq<int>, vals: seq<Block>, k: nat)
    requires Committable(g, d, bs) && |vals| == |bs| && bs != []
    requires k <= 2 * |bs| + 1
    ensures var e := Perform(d, CommitWrites(g, d[g.start], bs, vals)[..k]);
            && (k <= |bs| ==> e[g.start] == d[g.start])
            && (k > |bs| ==> e[g.start] == Head(d[g.start], bs)
                             && forall i | 0 <= i < |bs| :: e[g.start + 1 + i] == vals[i])
  {
    var ws := CommitWrites(g, d[g.start], bs, vals);
    if k <= |bs| {
      assert forall i | 0 <= i < k :: ws[..k][i].b == g.start + 1 + i;
      PerformUntouched(d, ws[..k], g.start);
    } else {
      var lp := LogPhase(g, d[g.start], bs, vals);
      var us := HomePhase(bs, vals)[..k - |lp|];
      assert ws[..k] == lp + us;
      PerformConcat(d, lp, us);
      InstallStages(g, d, bs, vals, us);
    }
  }

  lemma InstallStages(g: Geometry, d: Disk, bs: seq<int>, vals: seq<Block>, us: seq<Write>)
    requires Committable(g, d, bs) && |vals| == |bs| && forall i | 0 <= i < |us| :: IsHome(g, us[i].b)
    ensures var e := Perform(Perform(d, LogPhase(g, d[g.start], bs, vals)), us);
            e[g.start] == Head(d[g.start], bs) && forall i | 0 <= i < |bs| :: e[g.start + 1 + i] == vals[i]
  {
    CommitPoint(g, d, bs, vals);
    var p := Perform(d, LogPhase(g, d[g.start], bs, vals));
    HomeWritesKeepLog(g, p, us);
    SameInstalls(g, Perform(p, us), bs, vals);
  }

  lemma SameInstalls(g: Geometry, e: Disk, bs: seq<int>, vals: seq<Block>)
    requires Layout(g) && |e| == g.total && |vals| == |bs| < g.size && Installs(g, e, bs) == HomePhase(bs, vals)
    ensures forall i | 0 <= i < |bs| :: e[g.start + 1 + i] == vals[i]
  {
    forall i | 0 <= i < |bs| ensures e[g.start + 1 + i] == vals[i] {
      assert Installs(g, e, bs)[i] == HomePhase(bs, vals)[i];
    }
  }

  /** The same for the recovering thread. */
  lemma RecoverStages(g: Geometry, d: Disk, k: nat)
    requires HeaderOk(g, d) && k <= |Logged(g, d)|
    ensures var e := Perform(d, RecoverWrites(g, d)[..k]);
            && e[g.start] == d[g.start]
            && forall b | InLog(g, b) :: e[b] == d[b]
  {
    var us := Installs(g, d, Logged(g, d))[..k];
    assert RecoverWrites(g, d)[..k] == us;
    forall b | InLog(g, b)
      ensures Perform(d, us)[b] == d[b]
    {
      PerformUntouched(d, us, b);
    }
  }

  /** Stopped after any k of the writes ws, the disk d recovers to the file system
      before if k is at most m, and to the file system after otherwise. */
  ghost predicate CrashPoints(g: Geometry, d: Disk, ws: seq<Write>, m: int, before: Disk, after: Disk)
  {
    forall k | 0 <= k <= |ws| ::
      var e := Perform(d, ws[..k]);
      HeaderOk(g, e) && Home(g, Recovered(g, e)) == if k <= m then Home(g, before) else Home(g, after)
  }

  lemma CommitCrashPoints(g: Geometry, d: Disk, bs: seq<int>, vals: seq<Block>)
    requires Committable(g, d, bs) && |vals| == |bs|
    ensures var ws := CommitWrites(g, d[g.start], bs, vals);
            CrashPoints(g, d, ws, |bs|, d, Perform(d, ws))
  {
    var ws := CommitWrites(g, d[g.start], bs, vals);
    CommitCompletes(g, d, bs, vals);
    forall k | 0 <= k <= |ws|
      ensures var e := Perform(d, ws[..k]);
              HeaderOk(g, e) && Home(g, Recovered(g, e)) == if k <= |bs| then Home(g, d) else Home(g, Perform(d, ws))
    {
      CommitAtomic(g, d, bs, vals, k);
    }
  }

  lemma RecoverCrashPoints(g: Geometry, d: Disk)
    requires HeaderOk(g, d)
    ensures var ws := RecoverWrites(g, d);
            CrashPoints(g, d, ws, |ws|, Perform(d, ws), Perform(d, ws))
  {
    var ws := RecoverWrites(g, d);
    RecoveryCompletes(g, d);
    forall k | 0 <= k <= |ws|
      ensures var e := Perform(d, ws[..k]);
              HeaderOk(g, e) && Home(g, Recovered(g, e)) == Home(g, Perform(d, ws))
    {
      RecoveryRestartable(g, d, k);
    }
  }
}
