/** log.c in its own form: the global log structure, its loops over blocks, and the
    block device below it.  The ghost field trace records every block write, so that
    a contract can speak of each point at which the machine may stop. */
module LogKernel {
  import opened Common
  import opened LogDisk
  import opened LogPanics
  import opened LogProtocol

  /** What bread gives for each of the blocks bs. */
  function Cached(g: Geometry, d: Disk, pinned: map<int, Block>, bs: seq<int>): (vs: seq<Block>)
    requires |d| == g.total && forall i | 0 <= i < |bs| :: IsHome(g, bs[i])
    ensures |vs| == |bs|
  {
    seq(|bs|, i requires 0 <= i < |bs| && IsHome(g, bs[i]) => if bs[i] in pinned then pinned[bs[i]] else d[bs[i]])
  }

  /** ws installs the log blocks of d at the home blocks bs. */
  ghost predicate Copies(g: Geometry, d: Disk, bs: seq<int>, ws: seq<Write>)
  {
    && Layout(g) && |d| == g.total && |ws| == |bs| < g.size
    && forall i | 0 <= i < |bs| :: IsHome(g, bs[i]) && ws[i].b == bs[i] && ws[i].data == d[g.start + 1 + i]
  }

  /** One round of install_trans. */
  lemma InstallStep(g: Geometry, d: Disk, bs: seq<int>, ws: seq<Write>, tr: seq<Write>, k: int)
    requires Copies(g, d, bs, ws) && 0 <= k < |bs|
    ensures ws[k] == Write(bs[k], Perform(d, ws[..k])[g.start + k + 1])
    ensures Perform(d, ws[..k + 1]) == Put(Perform(d, ws[..k]), ws[k]) && tr + ws[..k + 1] == tr + ws[..k] + [ws[k]]
  {
    PerformUntouched(d, ws[..k], g.start + k + 1);
    PerformSnoc(d, ws, k);
  }

  /** Of the pinned buffers, those of the blocks bs are no longer pinned. */
  ghost predicate Unpins(pinned: map<int, Block>, pinned': map<int, Block>, bs: seq<int>)
  {
    && (forall b :: b in pinned' <==> b in pinned && b !in bs)
    && (forall b | b in pinned' :: pinned'[b] == pinned[b])
  }

  lemma UnpinMore(pinned: map<int, Block>, pinned1: map<int, Block>, pinned2: map<int, Block>, bs: seq<int>, k: int)
    requires 0 <= k < |bs| && Unpins(pinned, pinned1, bs[..k]) && pinned2 == pinned1 - {bs[k]}
    ensures Unpins(pinned, pinned2, bs[..k + 1])
  {
    assert bs[..k + 1] == bs[..k] + [bs[k]];
  }

  /** ws copies the cached contents of the blocks bs to the log. */
  ghost predicate Records(g: Geometry, d: Disk, pinned: map<int, Block>, bs: seq<int>, ws: seq<Write>)
  {
    && Layout(g) && |d| == g.total && |ws| == |bs| < g.size
    && forall i | 0 <= i < |bs| :: IsHome(g, bs[i]) && ws[i].b == g.start + 1 + i
                                   && ws[i].data == if bs[i] in pinned then pinned[bs[i]] else d[bs[i]]
  }

  /** One round of write_log. */
  lemma LogStep(g: Geometry, d: Disk, pinned: map<int, Block>, bs: seq<int>, ws: seq<Write>, tr: seq<Write>, k: int)
    requires Records(g, d, pinned, bs, ws) && 0 <= k < |bs| && IsHome(g, bs[k])
    ensures ws[k] == Write(g.start + k + 1, if bs[k] in pinned then pinned[bs[k]] else Perform(d, ws[..k])[bs[k]])
    ensures Perform(d, ws[..k + 1]) == Put(Perform(d, ws[..k]), ws[k]) && tr + ws[..k + 1] == tr + ws[..k] + [ws[k]]
  {
    PerformUntouched(d, ws[..k], bs[k]);
    PerformSnoc(d, ws, k);
  }

  /** log, the buffers and the disk as a state of the protocol. */
  predicate Matches(g: Geometry, s: State, d: Disk, pinned: map<int, Block>, held: nat, bs: seq<int>,
                    outstanding: int, committing: bool)
  {
    && Sane(g, s)
    && s.disk == d && s.pinned == pinned && s.held == held && s.blocks == bs && s.outstanding == outstanding
    && (committing <==> !s.pc.Running?)
  }

  class Log {
    const g: Geometry
    var disk: Disk
    var pinned: map<int, Block>   // buffers with B_DIRTY set
    var held: nat                 // clean buffers that somebody holds
    var outstanding: int
    var committing: bool
    var n: nat                    // log.lh
    var block: array<int>
    ghost var trace: seq<Write>

    ghost predicate Valid()
      reads this, block
    {
      && Layout(g) && |disk| == g.total
      && block.Length == LOGSIZE && n <= LOGSIZE && n < g.size
      && (forall i | 0 <= i < n :: IsHome(g, block[i]))
      && (forall b | b in pinned :: IsHome(g, b))
    }

    /** The running system: exactly the logged blocks are pinned. */
    ghost predicate Pinning()
      reads this, block
    {
      Valid() && Distinct(Blocks()) && Pins(pinned, Blocks())
    }

    /** bget finds buffers for k blocks that are not pinned. */
    predicate Room(k: nat)
      reads this
    {
      |pinned| + held + k <= g.nbuf
    }

    constructor (g: Geometry, d: Disk)
      requires Layout(g) && |d| == g.total
      ensures Valid() && this.g == g && disk == d && pinned == map[] && held == 0 && n == 0 && trace == []
      ensures outstanding == 0 && !committing && fresh(block)
    {
      this.g := g;
      disk, pinned, held, outstanding, committing, n, trace := d, map[], 0, 0, false, 0, [];
      block := new int[LOGSIZE];
    }

    ghost function Blocks(): seq<int>
      requires Valid()
      reads this, block
    {
      block[..n]
    }

    /** bread by a caller that holds busy clean buffers of its own; !ok is bget's panic. */
    method Bread(b: int, busy: nat) returns (ok: bool, data: Block)
      requires 0 <= b < |disk|
      ensures ok <==> b in pinned || Room(busy + 1)
      ensures ok ==> data == if b in pinned then pinned[b] else disk[b]
    {
      ok, data := true, disk[b];
      if b in pinned {
        data := pinned[b];
      } else if |pinned| + held + busy + 1 > g.nbuf {
        ok := false;
      }
    }

    method Bwrite(b: int, data: Block)
      requires 0 <= b < |disk|
      modifies this`disk, this`pinned, this`trace
      ensures disk == Put(old(disk), Write(b, data))
      ensures pinned == old(pinned) - {b} && |pinned| <= |old(pinned)|
      ensures b !in old(pinned) ==> pinned == old(pinned)
      ensures trace == old(trace) + [Write(b, data)]
    {
      disk := disk[b := data];
      UnpinSize(pinned, b);
      pinned := pinned - {b};
      trace := trace + [Write(b, data)];
    }

    method ReadHead() returns (ok: bool)
      requires Valid() && HeaderOk(g, disk)
      requires g.start !in pinned
      modifies this`n, block
      ensures Valid() && (ok <==> Room(1))
      ensures ok ==> Blocks() == Logged(g, disk)
      ensures !ok ==> n == old(n)
    {
      var buf;
      ok, buf := Bread(g.start, 0);
      if !ok {
        return;
      }
      n := buf[0];
      var i := 0;
      while i < n
        invariant 0 <= i <= n == buf[0]
        invariant forall k | 0 <= k < i :: block[k] == buf[1 + k]
      {
        block[i] := buf[1 + i];
        i := i + 1;
      }
      assert block[..n] == Logged(g, disk);
      assert forall k | 0 <= k < n :: block[k] == Logged(g, disk)[k];
    }

    method WriteHead() returns (ok: bool)
      requires Valid()
      modifies this`disk, this`pinned, this`trace
      ensures Valid() && pinned == old(pinned) && (ok <==> Room(1))
      ensures ok ==> var w := Write(g.start, Head(old(disk)[g.start], Blocks()));
                     trace == old(trace) + [w] && disk == Put(old(disk), w)
      ensures !ok ==> disk == old(disk) && trace == old(trace)
    {
      var was;
      ok, was := Bread(g.start, 0);
      if !ok {
        return;
      }
      var buf := Headed(was);
      Bwrite(g.start, buf);
    }

    /** The header block with log.lh copied into it. */
    method Headed(was: Block) returns (buf: seq<int>)
      requires Valid()
      ensures buf == Head(was, Blocks())
    {
      buf := was[0 := n];
      var i := 0;
      while i < n
        invariant 0 <= i <= n
        invariant |buf| == WORDS && buf[0] == n
        invariant forall k | 1 <= k < WORDS :: buf[k] == if k <= i then block[k - 1] else was[k]
      {
        buf := buf[1 + i := block[i]];
        i := i + 1;
      }
      assert buf == Head(was, block[..n]);
    }

    /** Installs, in order, the log block of each logged block number.  In a commit the
        logged blocks are pinned, and one more buffer is needed; in a recovery nothing is,
        and two are.  Without them it panics before any write. */
    method InstallTrans() returns (ok: bool)
      requires Pinning() || (Valid() && pinned == map[])
      modifies this`disk, this`pinned, this`trace
      ensures Valid() && |pinned| <= |old(pinned)|
      ensures ok <==> n == 0 || |old(pinned)| + held + Extra(old(pinned)) <= g.nbuf
      ensures n == 0 ==> pinned == old(pinned)
      ensures ok ==> && trace == old(trace) + Installs(g, old(disk), Blocks())
                     && disk == Perform(old(disk), Installs(g, old(disk), Blocks()))
                     && Unpins(old(pinned), pinned, Blocks())
      ensures !ok ==> disk == old(disk) && trace == old(trace) && pinned == old(pinned)
    {
      ghost var d, bs, tr := disk, block[..n], trace;
      ghost var ws := Installs(g, d, bs);
      assert Copies(g, d, bs, ws);
      ok := true;
      var tail := 0;
      assert ws[..0] == [];
      InstallingStart(pinned, bs);
      while tail < n
        invariant 0 <= tail <= n && Valid() && ok
        invariant disk == Perform(d, ws[..tail]) && trace == tr + ws[..tail]
        invariant Installing(old(pinned), pinned, bs, tail)
        invariant if tail == 0 then pinned == old(pinned) else |old(pinned)| + held + Extra(old(pinned)) <= g.nbuf
      {
        ok := InstallBlock(tail, d, bs, ws, tr, old(pinned));
        if !ok {
          return;
        }
        tail := tail + 1;
      }
      assert ws[..n] == ws && bs[..n] == bs;
    }

    /** One round of install_trans' loop. */
    method InstallBlock(tail: int, ghost d: Disk, ghost bs: seq<int>, ghost ws: seq<Write>, ghost tr: seq<Write>,
                        ghost p: map<int, Block>)
      returns (ok: bool)
      requires Valid() && Copies(g, d, bs, ws) && 0 <= tail < n && bs == block[..n] && Installing(p, pinned, bs, tail)
      requires disk == Perform(d, ws[..tail]) && trace == tr + ws[..tail]
      modifies this`disk, this`pinned, this`trace
      ensures Valid() && (ok <==> |old(pinned)| + held + Extra(p) <= g.nbuf) && |old(pinned)| <= |p|
      ensures ok ==> Installing(p, pinned, bs, tail + 1)
      ensures ok ==> disk == Perform(d, ws[..tail + 1]) && trace == tr + ws[..tail + 1]
      ensures !ok ==> disk == old(disk) && trace == old(trace) && pinned == old(pinned)
    {
      assert block[tail] == bs[tail];
      FirstPinned(p, pinned, bs, tail);
      var lbuf;
      ok, lbuf := BreadBoth(tail);
      if !ok {
        return;
      }
      InstallStep(g, d, bs, ws, tr, tail);
      InstallingStep(p, pinned, bs, tail);
      Bwrite(block[tail], lbuf);
    }

    /** The log block at tail and its home block, both at once. */
    method BreadBoth(tail: int) returns (ok: bool, lbuf: Block)
      requires Valid() && 0 <= tail < n
      ensures ok <==> Room(1) && (block[tail] in pinned || Room(2))
      ensures ok ==> lbuf == disk[g.start + tail + 1]
    {
      var dbuf;
      assert g.start + tail + 1 !in pinned;
      ok, lbuf := Bread(g.start + tail + 1, 0);
      if ok {
        ok, dbuf := Bread(block[tail], 1);
      }
    }

    /** Copies the cached contents of the logged blocks into the log, or panics at the first
        for want of a buffer. */
    method WriteLog() returns (ok: bool)
      requires Pinning()
      modifies this`disk, this`pinned, this`trace
      ensures Valid() && pinned == old(pinned) && (ok <==> n == 0 || Room(1))
      ensures ok ==>
                var lp := LogPhase(g, old(disk)[g.start], Blocks(), Cached(g, old(disk), old(pinned), Blocks()))[..n];
                trace == old(trace) + lp && disk == Perform(old(disk), lp)
      ensures !ok ==> disk == old(disk) && trace == old(trace)
    {
      ghost var d, bs, tr := disk, block[..n], trace;
      ghost var ws := LogPhase(g, d[g.start], bs, Cached(g, d, pinned, bs))[..n];
      assert Records(g, d, pinned, bs, ws);
      ok := true;
      var tail := 0;
      assert ws[..0] == [];
      while tail < n
        invariant 0 <= tail <= n && Valid() && ok && pinned == old(pinned)
        invariant disk == Perform(d, ws[..tail]) && trace == tr + ws[..tail]
        invariant tail > 0 ==> Room(1)
      {
        assert bs[tail] in bs;
        ok := LogBlock(tail, d, bs, ws, tr);
        if !ok {
          return;
        }
        tail := tail + 1;
      }
      assert ws[..n] == ws;
    }

    /** One round of write_log's loop. */
    method LogBlock(tail: int, ghost d: Disk, ghost bs: seq<int>, ghost ws: seq<Write>, ghost tr: seq<Write>)
      returns (ok: bool)
      requires Valid() && Records(g, d, pinned, bs, ws) && 0 <= tail < n && bs == block[..n] && bs[tail] in pinned
      requires disk == Perform(d, ws[..tail]) && trace == tr + ws[..tail]
      modifies this`disk, this`pinned, this`trace
      ensures Valid() && pinned == old(pinned) && (ok <==> Room(1))
      ensures ok ==> disk == Perform(d, ws[..tail + 1]) && trace == tr + ws[..tail + 1]
      ensures !ok ==> disk == old(disk) && trace == old(trace)
    {
      assert block[tail] == bs[tail] && IsHome(g, bs[tail]);
      LogStep(g, d, pinned, bs, ws, tr, tail);
      var to, from;
      ok, to := Bread(g.start + tail + 1, 0);
      if !ok {
        return;
      }
      ok, from := Bread(block[tail], 1);
      Bwrite(g.start + tail + 1, from);
    }

    /** The first half of commit: the log and its header, up to the commit point. */
    method LogTransaction() returns (ok: bool)
      requires Pinning() && n > 0
      modifies this`disk, this`pinned, this`trace
      ensures Valid() && pinned == old(pinned) && (ok <==> Room(1))
      ensures ok ==>
                var lp := LogPhase(g, old(disk)[g.start], Blocks(), Cached(g, old(disk), old(pinned), Blocks()));
                trace == old(trace) + lp && disk == Perform(old(disk), lp)
      ensures !ok ==> disk == old(disk) && trace == old(trace)
    {
      ghost var d := disk;
      ghost var lp := LogPhase(g, d[g.start], block[..n], Cached(g, d, pinned, block[..n]));
      ok := WriteLog();
      if !ok {
        return;
      }
      PerformUntouched(d, lp[..n], g.start);
      ok := WriteHead();
      PerformSnoc(d, lp, n);
      assert lp[..n] + [lp[n]] == lp && lp[..n + 1] == lp;
    }

    /** The common tail of commit and recovery: install, then erase the transaction. */
    method InstallAndClear() returns (ok: bool)
      requires (Pinning() || (Valid() && pinned == map[])) && HeaderOk(g, disk) && Blocks() == Logged(g, disk)
      modifies this`disk, this`pinned, this`trace, this`n
      ensures Valid()
      ensures ok <==> |old(pinned)| + held + (if old(n) > 0 then Extra(old(pinned)) else 1) <= g.nbuf
      ensures ok ==> && n == 0
                     && trace == old(trace) + RecoverWrites(g, old(disk))
                     && disk == Perform(old(disk), RecoverWrites(g, old(disk)))
                     && Unpins(old(pinned), pinned, old(Blocks()))
      ensures !ok ==> disk == old(disk) && trace == old(trace) && pinned == old(pinned)
    {
      ghost var p := disk;
      ghost var bs := block[..n];
      ok := InstallTrans();
      if !ok {
        return;
      }
      ghost var was, tr := pinned, trace;
      assert |bs| > 0 ==> |old(pinned)| + held + 1 <= g.nbuf;
      ok := Clear(p, bs);
      assert ok <==> |was| + held + 1 <= g.nbuf;
      if ok {
        assert trace == tr + [Write(g.start, Head(p[g.start], []))];
        assert trace == old(trace) + RecoverWrites(g, p);
      }
    }

    /** log.lh.n = 0 and its write_head, after install_trans on disk p. */
    method Clear(ghost p: Disk, ghost bs: seq<int>) returns (ok: bool)
      requires Valid() && HeaderOk(g, p) && bs == Logged(g, p) && disk == Perform(p, Installs(g, p, bs))
      modifies this`disk, this`pinned, this`trace, this`n
      ensures Valid() && n == 0 && pinned == old(pinned) && (ok <==> Room(1))
      ensures ok ==> && disk == Perform(p, RecoverWrites(g, p))
                     && RecoverWrites(g, p) == Installs(g, p, bs) + [Write(g.start, Head(p[g.start], []))]
                     && trace == old(trace) + [Write(g.start, Head(p[g.start], []))]
      ensures !ok ==> disk == old(disk) && trace == old(trace)
    {
      CommitTail(g, p, bs, disk);
      n := 0;
      assert block[..n] == [];
      ok := WriteHead();
    }

    /** The block writes of commit, and what a crash between any two of them means:
        the file system before or the file system after, nothing in between.  If all
        buffers are taken it panics before the first of them. */
    method Commit() returns (ok: bool)
      requires Pinning() && Committable(g, disk, Blocks())
      modifies this`disk, this`pinned, this`trace, this`n
      ensures Valid() && (ok <==> old(n) == 0 || old(n) + held < g.nbuf)
      ensures ok ==> n == 0 && HeaderOk(g, disk) && disk[g.start][0] == 0 && Unpins(old(pinned), pinned, old(Blocks()))
      ensures ok ==> var ws := Commits(g, old(disk), old(pinned), old(Blocks()));
                     && trace == old(trace) + ws
                     && disk == Perform(old(disk), ws)
                     && CrashPoints(g, old(disk), ws, old(n), old(disk), disk)
      ensures ok ==> AtHome(g, old(disk), old(pinned), old(Blocks()), disk)
      ensures !ok ==> disk == old(disk) && trace == old(trace) && pinned == old(pinned) && n == old(n)
    {
      CommitDurable(g, disk, pinned, block[..n]);
      ghost var d := disk;
      ghost var bs := block[..n];
      ghost var vs := Cached(g, disk, pinned, bs);
      PinsCount(pinned, bs);
      ok := true;
      if n > 0 {
        ok := CommitBlocks();
        if !ok {
          return;
        }
      } else {
        assert Commits(g, d, pinned, bs) == [] && trace == old(trace) + [];
      }
      CommitCompletes(g, d, bs, vs);
      CommitCrashPoints(g, d, bs, vs);
    }

    /** The writes of commit when there are blocks to commit. */
    method CommitBlocks() returns (ok: bool)
      requires Pinning() && Committable(g, disk, Blocks()) && n > 0
      modifies this`disk, this`pinned, this`trace, this`n
      ensures Valid() && (ok <==> old(Room(1)))
      ensures ok ==> var ws := Commits(g, old(disk), old(pinned), old(Blocks()));
                     && n == 0 && trace == old(trace) + ws && disk == Perform(old(disk), ws)
                     && Unpins(old(pinned), pinned, old(Blocks()))
      ensures !ok ==> disk == old(disk) && trace == old(trace) && pinned == old(pinned) && n == old(n)
    {
      ghost var d, bs := disk, block[..n];
      ghost var vs := Cached(g, d, pinned, bs);
      assert bs[0] in bs;
      ok := LogTransaction();
      if !ok {
        return;
      }
      CommitMiddle(g, d, bs, vs, disk, old(trace));
      assert Pinning() && pinned != map[];
      ok := InstallAndClear();
    }

    /** Recovery; every disk on the way recovers to the same file system.  After a crash in
        any reachable protocol state s it is the run of the recovery steps. */
    method RecoverFromLog(ghost s: State) returns (ok: bool)
      requires Valid() && HeaderOk(g, disk) && pinned == map[]
      modifies this`disk, this`pinned, this`trace, this`n, block
      ensures Valid() && pinned == map[]
      ensures ok <==> held + RecoveryNeeds(g, old(disk)) <= g.nbuf
      ensures ok ==> var ws := RecoverWrites(g, old(disk));
                     && n == 0 && trace == old(trace) + ws
                     && disk == Perform(old(disk), ws)
                     && CrashPoints(g, old(disk), ws, |ws|, disk, disk)
      ensures ok ==> && HeaderOk(g, disk) && disk[g.start][0] == 0
                     && Home(g, disk) == Home(g, Recovered(g, old(disk)))
      ensures !ok ==> disk == old(disk) && trace == old(trace)
      ensures Inv(g, s) && s.disk == old(disk) && held == 0 && outstanding == 0 && !committing ==>
                if ok then Run(g, s, Reboot(g, s)).Reached? && Shows(Run(g, s, Reboot(g, s)).s)
                else Run(g, s, [Crash, DiskWrite]).Panicked?
    {
      ghost var d := disk;
      ok := Replay();
      if Inv(g, s) && s.disk == d && held == 0 && outstanding == 0 && !committing {
        if ok {
          RebootRun(g, s);
          assert Blocks() == [];
        } else {
          RebootPanics(g, s);
        }
      }
    }

    /** read_head, install_trans and write_head of a recovery. */
    method Replay() returns (ok: bool)
      requires Valid() && HeaderOk(g, disk) && pinned == map[]
      modifies this`disk, this`pinned, this`trace, this`n, block
      ensures Valid() && pinned == map[]
      ensures ok <==> held + RecoveryNeeds(g, old(disk)) <= g.nbuf
      ensures ok ==> var ws := RecoverWrites(g, old(disk));
                     && n == 0 && trace == old(trace) + ws && disk == Perform(old(disk), ws)
                     && CrashPoints(g, old(disk), ws, |ws|, disk, disk)
      ensures ok ==> && HeaderOk(g, disk) && disk[g.start][0] == 0
                     && Home(g, disk) == Home(g, Recovered(g, old(disk)))
      ensures !ok ==> disk == old(disk) && trace == old(trace)
    {
      ghost var d := disk;
      ok := ReadHead();
      if !ok {
        return;
      }
      ghost var bs := Blocks();
      ok := InstallAndClear();
      if !ok {
        return;
      }
      UnpinsAll(map[], pinned, bs);
      RecoverDone(g, d);
    }

    ghost predicate Shows(s: State)
      reads this, block
    {
      Valid() && Matches(g, s, disk, pinned, held, Blocks(), outstanding, committing)
    }

    /** One pass of begin_op's loop: false means sleep and try again.  It is the Begin step
        of any protocol state the log shows. */
    method BeginOp(ghost s: State, ghost id: nat) returns (granted: bool)
      requires Valid()
      modifies this`outstanding
      ensures Valid()
      ensures granted <==> !committing && n + (old(outstanding) + 1) * MAXOPBLOCKS <= LOGSIZE
      ensures outstanding == old(outstanding) + if granted then 1 else 0
      ensures old(Shows(s)) && Enabled(g, s, Begin(id)) ==>
                Next(g, s, Begin(id)).Ok? && Shows(Next(g, s, Begin(id)).s)
    {
      if committing {
        granted := false;
      } else if n + (outstanding + 1) * MAXOPBLOCKS > LOGSIZE {
        granted := false;
      } else {
        outstanding := outstanding + 1;
        granted := true;
      }
    }

    /** log_write of a buffer for home block b, which the caller holds; false is a panic.  It
        is the Check and the Append step of operation i of any protocol state the log shows. */
    method LogWrite(b: int, data: Block, ghost s: State, ghost i: nat) returns (ok: bool)
      requires Pinning() && IsHome(g, b) && (b in pinned || held > 0)
      modifies this`n, this`pinned, this`held, block
      ensures Pinning()
      ensures ok <==> old(n) < LOGSIZE && old(n) < g.size - 1 && outstanding >= 1
      ensures Blocks() == if ok then Absorb(old(Blocks()), b) else old(Blocks())
      ensures pinned == if ok then old(pinned)[b := data] else old(pinned)
      ensures held + |Blocks()| == old(held) + |old(Blocks())|
      ensures old(Shows(s)) && Enabled(g, s, Check(i)) && (ok ==> Enabled(g, Checked(s, i), Append(i, b, data))) ==>
                if ok then Next(g, s, Check(i)) == Ok(Checked(s, i)) && Shows(Appended(g, s, i, b, data))
                else Next(g, s, Check(i)).Panic?
    {
      ok := Pin(b, data);
      if ok && old(Shows(s)) && Enabled(g, s, Check(i)) && Enabled(g, Checked(s, i), Append(i, b, data)) {
        LogWriteSteps(g, s, i, b, data, held, committing);
        assert Blocks() == Absorb(s.blocks, b) && pinned == s.pinned[b := data];
      }
    }

    /** What log_write does. */
    method Pin(b: int, data: Block) returns (ok: bool)
      requires Pinning() && IsHome(g, b) && (b in pinned || held > 0)
      modifies this`n, this`pinned, this`held, block
      ensures Pinning()
      ensures ok <==> old(n) < LOGSIZE && old(n) < g.size - 1 && outstanding >= 1
      ensures Blocks() == if ok then Absorb(old(Blocks()), b) else old(Blocks())
      ensures pinned == if ok then old(pinned)[b := data] else old(pinned)
      ensures held + |Blocks()| == old(held) + |old(Blocks())|
    {
      if n >= LOGSIZE || n >= g.size - 1 || outstanding < 1 {
        return false;
      }
      ghost var bs := Blocks();
      AbsorbDistinct(bs, b);
      Record(b);
      if b !in pinned {
        held := held - 1;
      }
      pinned := pinned[b := data];
      ok := true;
    }

    /** The slot scan: b takes its own slot, or the first free one. */
    method Record(b: int)
      requires Valid() && IsHome(g, b) && n < LOGSIZE && n < g.size - 1
      modifies this`n, block
      ensures Valid() && Blocks() == Absorb(old(Blocks()), b)
    {
      var k := 0;
      while k < n && block[k] != b
        invariant 0 <= k <= n
        invariant forall j | 0 <= j < k :: block[j] != b
      {
        k := k + 1;
      }
      ghost var bs := block[..n];
      assert if k < n then bs[k] == b else b !in bs;
      block[k] := b;
      if k == n {
        n := n + 1;
      }
      assert block[..n] == Absorb(bs, b);
    }

    /** end_op; false is a panic, at once or in the commit it starts.  It is the End step of
        operation i of any reachable protocol state the log shows, and for the last operation
        the whole run of the commit. */
    method EndOp(ghost s: State, ghost i: nat) returns (ok: bool)
      requires Pinning()
      requires outstanding == 1 && !committing ==> Committable(g, disk, Blocks())
      modifies this
      ensures ok <==> !old(committing) && (old(outstanding) == 1 && old(n) > 0 ==> old(n) + old(held) < g.nbuf)
      ensures ok ==> outstanding == old(outstanding) - 1 && !committing && Pinning() && held == old(held)
      ensures ok ==> EndsAs(g, old(disk), old(pinned), old(Blocks()), outstanding == 0, disk, pinned, Blocks())
      ensures ok && outstanding == 0 ==> HeaderOk(g, disk) && disk[g.start][0] == 0
      ensures ok && outstanding == 0 ==> AtHome(g, old(disk), old(pinned), old(Blocks()), disk) && pinned == map[]
      ensures ok ==>
                trace == old(trace) + if outstanding == 0 then Commits(g, old(disk), old(pinned), old(Blocks())) else []
      ensures !ok ==> disk == old(disk) && trace == old(trace)
      ensures old(Shows(s)) && Inv(g, s) && Enabled(g, s, End(i)) ==>
                if ok then Run(g, s, EndEvents(s, i)).Reached? && Shows(Ended(g, s, i))
                else Run(g, s, [End(i), DiskWrite]).Panicked?
    {
      ok := Leave();
      if old(Shows(s)) && Inv(g, s) && Enabled(g, s, End(i)) {
        if ok {
          assert EndsAs(g, s.disk, s.pinned, s.blocks, s.outstanding == 1, disk, pinned, Blocks());
          EndMatches(g, s, i, disk, pinned, Blocks());
        } else {
          EndPanics(g, s, i);
        }
      }
    }

    /** What end_op does. */
    method Leave() returns (ok: bool)
      requires Pinning()
      requires outstanding == 1 && !committing ==> Committable(g, disk, Blocks())
      modifies this
      ensures ok <==> !old(committing) && (old(outstanding) == 1 && old(n) > 0 ==> old(n) + old(held) < g.nbuf)
      ensures ok ==> outstanding == old(outstanding) - 1 && !committing && Pinning() && held == old(held)
      ensures ok ==> EndsAs(g, old(disk), old(pinned), old(Blocks()), outstanding == 0, disk, pinned, Blocks())
      ensures ok && outstanding == 0 ==> HeaderOk(g, disk) && disk[g.start][0] == 0
      ensures ok && outstanding == 0 ==> AtHome(g, old(disk), old(pinned), old(Blocks()), disk) && pinned == map[]
      ensures ok ==>
                trace == old(trace) + if outstanding == 0 then Commits(g, old(disk), old(pinned), old(Blocks())) else []
      ensures !ok ==> disk == old(disk) && trace == old(trace)
    {
      outstanding := outstanding - 1;
      if committing {
        return false;
      }
      if outstanding != 0 {
        return true;
      }
      committing := true;
      ok := CommitLast();
      if ok {
        committing := false;
      }
    }

    /** end_op's commit. */
    method CommitLast() returns (ok: bool)
      requires Pinning() && Committable(g, disk, Blocks())
      modifies this`disk, this`pinned, this`trace, this`n
      ensures ok <==> old(n) == 0 || old(n) + held < g.nbuf
      ensures ok ==> && Pinning() && HeaderOk(g, disk) && disk[g.start][0] == 0
                     && EndsAs(g, old(disk), old(pinned), old(Blocks()), true, disk, pinned, Blocks())
                     && trace == old(trace) + Commits(g, old(disk), old(pinned), old(Blocks()))
                     && AtHome(g, old(disk), old(pinned), old(Blocks()), disk) && pinned == map[]
      ensures !ok ==> disk == old(disk) && trace == old(trace)
    {
      ghost var bs := Blocks();
      ok := Commit();
      if ok {
        UnpinsAll(old(pinned), pinned, bs);
        assert block[..n] == [];
      }
    }
  }

  function Checked(s: State, i: nat): State
    requires i < |s.ops|
  {
    s.(ops := s.ops[i := s.ops[i].(checked := true)])
  }

  /** The protocol state after both steps of a log_write. */
  function Appended(g: Geometry, s: State, i: nat, b: int, data: Block): State
    requires Sane(g, s) && i < |s.ops| && Enabled(g, Checked(s, i), Append(i, b, data))
  {
    Next(g, Checked(s, i), Append(i, b, data)).s
  }

  lemma LogWriteSteps(g: Geometry, s: State, i: nat, b: int, data: Block, held: nat, committing: bool)
    requires Matches(g, s, s.disk, s.pinned, s.held, s.blocks, s.outstanding, committing)
    requires !LogFull(g, s) && s.outstanding >= 1 && Enabled(g, s, Check(i))
    requires Enabled(g, Checked(s, i), Append(i, b, data)) && held + |Absorb(s.blocks, b)| == s.held + |s.blocks|
    ensures Next(g, s, Check(i)) == Ok(Checked(s, i))
    ensures Matches(g, Appended(g, s, i, b, data), s.disk, s.pinned[b := data], held, Absorb(s.blocks, b),
                    s.outstanding, committing)
  {
  }

  lemma UnpinSize(pinned: map<int, Block>, b: int)
    ensures |pinned - {b}| <= |pinned|
  {
    assert (pinned - {b}).Keys == pinned.Keys - {b};
    SubsetSize((pinned - {b}).Keys, pinned.Keys);
    assert |pinned| == |pinned.Keys| && |pinned - {b}| == |(pinned - {b}).Keys|;
  }

  /** The pinned buffers, p at first, when the blocks bs[..k] are installed. */
  ghost predicate Installing(p: map<int, Block>, pinned: map<int, Block>, bs: seq<int>, k: nat)
  {
    && k <= |bs| && Unpins(p, pinned, bs[..k]) && |pinned| <= |p|
    && (p == map[] || (Distinct(bs) && Pins(pinned, bs[k..])))
  }

  /** The buffers install_trans needs besides the pinned ones: one for the log block, and one
      for its home block if that is not pinned. */
  ghost function Extra(p: map<int, Block>): nat
  {
    if p == map[] then 2 else 1
  }

  lemma InstallingStart(p: map<int, Block>, bs: seq<int>)
    requires p == map[] || (Distinct(bs) && Pins(p, bs))
    ensures Installing(p, p, bs, 0)
  {
    assert bs[0..] == bs && bs[..0] == [];
  }

  /** The block next to be installed is pinned, unless nothing is. */
  lemma FirstPinned(p: map<int, Block>, pinned: map<int, Block>, bs: seq<int>, k: nat)
    requires k < |bs| && Installing(p, pinned, bs, k)
    ensures p == map[] <==> bs[k] !in pinned
    ensures |pinned| <= |p|
  {
    if p != map[] {
      assert bs[k..][0] == bs[k];
    }
  }

  lemma InstallingStep(p: map<int, Block>, pinned: map<int, Block>, bs: seq<int>, k: nat)
    requires k < |bs| && Installing(p, pinned, bs, k)
    ensures Installing(p, pinned - {bs[k]}, bs, k + 1)
  {
    UnpinMore(p, pinned, pinned - {bs[k]}, bs, k);
    UnpinSize(pinned, bs[k]);
    if p != map[] {
      UnpinNext(bs, k, pinned);
    }
  }

  lemma UnpinsAll(pinned: map<int, Block>, pinned': map<int, Block>, bs: seq<int>)
    requires Unpins(pinned, pinned', bs) && forall b | b in pinned :: b in bs
    ensures pinned' == map[]
  {
    assert forall b :: b !in pinned';
  }

  /** A crash in state s and the steps of the recovery that follows. */
  function Reboot(g: Geometry, s: State): seq<Event>
    requires HeaderOk(g, s.disk)
  {
    [Crash] + BlockWrites(|Logged(g, s.disk)| + 1)
  }

  function BlockWrites(k: nat): seq<Event>
  {
    if k == 0 then [] else [DiskWrite] + BlockWrites(k - 1)
  }

  /** What a recovery that began on disk base ends in. */
  predicate Replayed(g: Geometry, base: Disk, r: RunResult)
  {
    && HeaderOk(g, base) && r.Reached? && Inv(g, r.s) && r.s.pc.Running? && r.s.outstanding == 0 && r.s.held == 0
    && r.s.blocks == [] && r.s.pinned == map[] && r.s.disk == Perform(base, RecoverWrites(g, base))
  }

  /** One write of a recovery under way, not the last. */
  lemma RecoverOneMore(g: Geometry, s: State, k: nat) returns (t: State)
    requires Inv(g, s) && s.pc.Recover? && s.pc.tail < |s.blocks| && 2 <= g.nbuf && k > 0
    ensures Run(g, s, BlockWrites(k)) == Run(g, t, BlockWrites(k - 1))
    ensures Inv(g, t) && t.pc == Recover(s.pc.tail + 1) && t.blocks == s.blocks && t.base == s.base
  {
    RecoverWriteKeeps(g, s);
    t := Wrote(g, s);
    RunFirst(g, s, DiskWrite, BlockWrites(k - 1));
    assert BlockWrites(k) == [DiskWrite] + BlockWrites(k - 1);
  }

  lemma RecoverLast(g: Geometry, s: State)
    requires Inv(g, s) && s.pc.Recover? && s.pc.tail == |s.blocks| && 1 <= g.nbuf
    ensures Replayed(g, s.base, Run(g, s, BlockWrites(1)))
  {
    RecoverWriteKeeps(g, s);
    RecoverNext(g, s);
    assert RecoverWrites(g, s.base)[..s.pc.tail + 1] == RecoverWrites(g, s.base);
    RunOne(g, s, DiskWrite);
    assert BlockWrites(1) == [DiskWrite];
  }

  /** A recovery under way, left to itself, ends with its writes done. */
  lemma {:induction false} RecoverRuns(g: Geometry, s: State, k: nat)
    requires Inv(g, s) && s.pc.Recover? && k > 0 && k + s.pc.tail == |s.blocks| + 1 && (k > 1 ==> 2 <= g.nbuf)
    requires 1 <= g.nbuf
    ensures Replayed(g, s.base, Run(g, s, BlockWrites(k)))
    decreases k
  {
    if k == 1 {
      RecoverLast(g, s);
      return;
    }
    var t := RecoverOneMore(g, s, k);
    RecoverRuns(g, t, k - 1);
  }

  /** The buffers that recovery needs. */
  function RecoveryNeeds(g: Geometry, d: Disk): nat
    requires HeaderOk(g, d)
  {
    if Logged(g, d) == [] then 1 else 2
  }

  /** What a crash and the recovery lead to. */
  lemma RebootRun(g: Geometry, s: State)
    requires Inv(g, s) && RecoveryNeeds(g, s.disk) <= g.nbuf
    ensures Replayed(g, s.disk, Run(g, s, Reboot(g, s)))
  {
    var k := |Logged(g, s.disk)|;
    var t := Rebooted(g, s, BlockWrites(k + 1));
    RecoverRuns(g, t, k + 1);
  }

  lemma RebootPanics(g: Geometry, s: State)
    requires Inv(g, s) && RecoveryNeeds(g, s.disk) > g.nbuf
    ensures Run(g, s, [Crash, DiskWrite]).Panicked?
  {
    var t := Rebooted(g, s, [DiskWrite]);
    PanicOne(g, t, DiskWrite);
    assert [Crash] + [DiskWrite] == [Crash, DiskWrite];
  }

  lemma PanicOne(g: Geometry, s: State, e: Event)
    requires Sane(g, s) && Enabled(g, s, e) && Panics(g, s, e)
    ensures Run(g, s, [e]).Panicked?
  {
  }

  /** The state a crash leaves. */
  lemma Rebooted(g: Geometry, s: State, es: seq<Event>) returns (t: State)
    requires Inv(g, s)
    ensures Inv(g, t) && t.pc == Recover(0) && t.blocks == Logged(g, s.disk) && t.base == s.disk && t.held == 0
    ensures Run(g, s, [Crash] + es) == Run(g, t, es)
  {
    CrashKeeps(g, s);
    t := Next(g, s, Crash).s;
    RunFirst(g, s, Crash, es);
  }

  lemma RunFirst(g: Geometry, s: State, e: Event, es: seq<Event>)
    requires Sane(g, s) && Enabled(g, s, e) && Next(g, s, e).Ok?
    ensures Run(g, s, [e] + es) == Run(g, Next(g, s, e).s, es)
  {
    assert ([e] + es)[1..] == es;
  }

  /** The steps of a commit of k blocks that has just begun. */
  function ToFinish(k: nat): seq<Event>
  {
    Rest(if k == 0 then 0 else 2 * k + 2)
  }

  function Rest(k: nat): seq<Event>
  {
    if k == 0 then [Finish] else [DiskWrite] + Rest(k - 1)
  }

  /** What a commit of the blocks bs that began on disk base ends in. */
  predicate Committed(g: Geometry, base: Disk, bs: seq<int>, vs: seq<Block>, outstanding: int, held: nat, r: RunResult)
  {
    && Committable(g, base, bs) && |vs| == |bs| && r.Reached? && Inv(g, r.s) && r.s.pc.Running?
    && r.s.blocks == [] && r.s.pinned == map[] && r.s.outstanding == outstanding && r.s.held == held
    && r.s.disk == Perform(base, CommitWrites(g, base[g.start], bs, vs))
  }

  /** One write of a commit under way that has its buffer. */
  lemma CommitOneMore(g: Geometry, s: State, es: seq<Event>) returns (t: State)
    requires Inv(g, s) && Fits(g, s) && (s.pc.CopyLog? || s.pc.Install?) && Dirty(s) + s.held < g.nbuf
    ensures Run(g, s, [DiskWrite] + es) == Run(g, t, es)
    ensures && Inv(g, t) && (t.pc.CopyLog? || t.pc.Install? || t.pc.CommitDone?) && Done(t) == Done(s) + 1
            && t.blocks == s.blocks && t.base == s.base && t.outstanding == s.outstanding && t.held == s.held
            && Vals(g, t) == Vals(g, s) && Dirty(t) <= Dirty(s)
  {
    CommitWriteKeeps(g, s);
    CommitSame(g, s);
    CommitStep(g, s);
    t := Wrote(g, s);
    RunFirst(g, s, DiskWrite, es);
  }

  /** A commit under way, left to itself with a buffer free, ends with its writes done and
      nothing logged. */
  lemma {:induction false} CommitRuns(g: Geometry, s: State, k: nat)
    requires Inv(g, s) && Fits(g, s) && (s.pc.CopyLog? || s.pc.Install? || s.pc.CommitDone?)
    requires k + Done(s) == (if s.blocks == [] then 0 else 2 * |s.blocks| + 2) && Dirty(s) + s.held < g.nbuf
    ensures Committed(g, s.base, s.blocks, Vals(g, s), s.outstanding, s.held, Run(g, s, Rest(k)))
    decreases k
  {
    if s.pc.CommitDone? {
      CommitEnds(g, s);
    } else {
      assert k > 0;
      var t := CommitOneMore(g, s, Rest(k - 1));
      CommitRuns(g, t, k - 1);
    }
  }

  lemma CommitEnds(g: Geometry, s: State)
    requires Inv(g, s) && s.pc.CommitDone?
    ensures Committed(g, s.base, s.blocks, Vals(g, s), s.outstanding, s.held, Run(g, s, Rest(0)))
  {
    FinishKeeps(g, s);
    var ws := CommitWrites(g, s.base[g.start], s.blocks, Vals(g, s));
    assert ws[..Done(s)] == ws;
    RunOne(g, s, Finish);
  }

  function EndEvents(s: State, i: nat): seq<Event>
  {
    [End(i)] + if s.outstanding == 1 then ToFinish(|s.blocks|) else []
  }

  /** The protocol state after the steps of an end_op. */
  function Ended(g: Geometry, s: State, i: nat): State
  {
    var r := Run(g, s, EndEvents(s, i));
    if r.Reached? then r.s else s
  }

  /** end_op, if it commits anything, finds a buffer free. */
  predicate CanEnd(g: Geometry, s: State)
  {
    s.outstanding == 1 && s.blocks != [] ==> |s.blocks| + s.held < g.nbuf
  }

  /** What end_op's steps lead to. */
  lemma EndRun(g: Geometry, s: State, i: nat)
    requires Inv(g, s) && Enabled(g, s, End(i)) && CanEnd(g, s) && Fits(g, s)
    ensures s.pc.Running? && Run(g, s, EndEvents(s, i)) == Reached(Ended(g, s, i))
    ensures var t := Ended(g, s, i);
            && Inv(g, t) && t.pc.Running? && t.outstanding == s.outstanding - 1 && t.held == s.held
            && (s.outstanding != 1 ==> t.blocks == s.blocks && t.pinned == s.pinned && t.disk == s.disk)
            && (s.outstanding == 1 ==>
                  && t.blocks == [] && t.pinned == map[]
                  && t.disk == Perform(s.disk, CommitWrites(g, s.disk[g.start], s.blocks,
                                                            Cached(g, s.disk, s.pinned, s.blocks))))
  {
    EndKeeps(g, s, i);
    var t := Next(g, s, End(i)).s;
    RunFirst(g, s, End(i), if s.outstanding == 1 then ToFinish(|s.blocks|) else []);
    if s.outstanding == 1 {
      SameVals(g, s, t);
      CachedIsVals(g, s);
      LastEndRun(g, t);
    } else {
      assert Run(g, t, []) == Reached(t);
    }
  }

  lemma LastEndRun(g: Geometry, t: State)
    requires Inv(g, t) && Fits(g, t) && Dirty(t) + t.held < g.nbuf + (if t.blocks == [] then 1 else 0)
    requires t.pc == if t.blocks == [] then CommitDone else CopyLog(0)
    ensures Committed(g, t.base, t.blocks, Vals(g, t), t.outstanding, t.held, Run(g, t, ToFinish(|t.blocks|)))
  {
    var k := if t.blocks == [] then 0 else 2 * |t.blocks| + 2;
    assert ToFinish(|t.blocks|) == Rest(k);
    if t.blocks == [] {
      CommitEnds(g, t);
    } else {
      CommitRuns(g, t, k);
    }
  }

  lemma SameVals(g: Geometry, s: State, t: State)
    requires Inv(g, s) && Inv(g, t) && t.origin == s.origin && t.history == s.history && t.blocks == s.blocks
    ensures Vals(g, t) == Vals(g, s)
  {
    assert Current(t) == Current(s);
  }

  /** The last end_op on a cache with no buffer free panics at its first block write. */
  lemma EndPanics(g: Geometry, s: State, i: nat)
    requires Inv(g, s) && Enabled(g, s, End(i)) && !CanEnd(g, s)
    ensures Run(g, s, [End(i), DiskWrite]).Panicked?
  {
    EndKeeps(g, s, i);
    RunFirst(g, s, End(i), [DiskWrite]);
    assert [End(i)] + [DiskWrite] == [End(i), DiskWrite];
  }

  /** The block writes of a commit. */
  function Commits(g: Geometry, d: Disk, pinned: map<int, Block>, bs: seq<int>): seq<Write>
    requires Layout(g) && |d| == g.total && |bs| <= LOGSIZE && |bs| < g.size
    requires forall i | 0 <= i < |bs| :: IsHome(g, bs[i])
  {
    CommitWrites(g, d[g.start], bs, Cached(g, d, pinned, bs))
  }

  /** The effect of end_op on the disk, the pinned buffers and the logged blocks: the last
      operation's commits them all, any other's leaves them alone. */
  ghost predicate EndsAs(g: Geometry, d: Disk, p: map<int, Block>, bs: seq<int>, last: bool,
                         d': Disk, p': map<int, Block>, bs': seq<int>)
    requires Layout(g) && |d| == g.total && |bs| <= LOGSIZE && |bs| < g.size
    requires forall i | 0 <= i < |bs| :: IsHome(g, bs[i])
  {
    if last then bs' == [] && Unpins(p, p', bs) && d' == Perform(d, Commits(g, d, p, bs))
    else d' == d && p' == p && bs' == bs
  }

  /** Every logged block is at home with the contents of its buffer, and no other home block has
      changed. */
  ghost predicate AtHome(g: Geometry, d: Disk, pinned: map<int, Block>, bs: seq<int>, d': Disk)
  {
    && |d| == |d'| == g.total
    && (forall b | b in bs :: IsHome(g, b) && b in pinned && d'[b] == pinned[b])
    && (forall b | IsHome(g, b) && b !in bs :: d'[b] == d[b])
  }

  lemma CommitDurable(g: Geometry, d: Disk, pinned: map<int, Block>, bs: seq<int>)
    requires Committable(g, d, bs) && Distinct(bs) && Pins(pinned, bs)
    ensures AtHome(g, d, pinned, bs, Perform(d, Commits(g, d, pinned, bs)))
  {
    var vs, e := Cached(g, d, pinned, bs), Perform(d, Commits(g, d, pinned, bs));
    forall b | b in bs ensures IsHome(g, b) && b in pinned && e[b] == pinned[b] {
      var i :| 0 <= i < |bs| && bs[i] == b;
      CommitInstalls(g, d, bs, vs, b);
      assert e[b] == vs[i];
    }
    forall b | IsHome(g, b) && b !in bs ensures e[b] == d[b] {
      CommitInstalls(g, d, bs, vs, b);
    }
  }

  lemma EndMatches(g: Geometry, s: State, i: nat, d: Disk, p: map<int, Block>, bs: seq<int>)
    requires Inv(g, s) && Enabled(g, s, End(i)) && CanEnd(g, s) && Fits(g, s)
    requires EndsAs(g, s.disk, s.pinned, s.blocks, s.outstanding == 1, d, p, bs)
    ensures Run(g, s, EndEvents(s, i)).Reached?
    ensures Matches(g, Ended(g, s, i), d, p, s.held, bs, s.outstanding - 1, false)
  {
    EndRun(g, s, i);
    if s.outstanding == 1 {
      UnpinsAll(s.pinned, p, s.blocks);
    }
  }

  /** write_log copies the current contents: every logged block is pinned. */
  lemma CachedIsVals(g: Geometry, s: State)
    requires Inv(g, s) && s.pc.Running?
    ensures Cached(g, s.disk, s.pinned, s.blocks) == Vals(g, s)
  {
  }

  /** Between its two halves a commit has a log like one that is to be recovered. */
  lemma CommitMiddle(g: Geometry, d: Disk, bs: seq<int>, vs: seq<Block>, p: Disk, tr: seq<Write>)
    requires Committable(g, d, bs) && |vs| == |bs| > 0 && p == Perform(d, LogPhase(g, d[g.start], bs, vs))
    ensures HeaderOk(g, p) && Logged(g, p) == bs
    ensures var ws := CommitWrites(g, d[g.start], bs, vs);
            && tr + ws == tr + LogPhase(g, d[g.start], bs, vs) + RecoverWrites(g, p)
            && Perform(d, ws) == Perform(p, RecoverWrites(g, p))
  {
    CommitPoint(g, d, bs, vs);
    CommitSplit(g, d, bs, vs);
    PerformConcat(d, LogPhase(g, d[g.start], bs, vs), RecoverWrites(g, p));
  }

  lemma RecoverDone(g: Geometry, d: Disk)
    requires HeaderOk(g, d)
    ensures var ws := RecoverWrites(g, d); var e := Perform(d, ws);
            && HeaderOk(g, e) && e[g.start][0] == 0 && Home(g, e) == Home(g, Recovered(g, d))
            && CrashPoints(g, d, ws, |ws|, e, e)
  {
    RecoveryCompletes(g, d);
    RecoverCrashPoints(g, d);
  }

  /** The installs and the clearing header write together are RecoverWrites. */
  lemma CommitTail(g: Geometry, p: Disk, bs: seq<int>, e: Disk)
    requires HeaderOk(g, p) && bs == Logged(g, p) && e == Perform(p, Installs(g, p, bs))
    ensures e[g.start] == p[g.start]
    ensures var w := Write(g.start, Head(p[g.start], []));
            Put(e, w) == Perform(p, RecoverWrites(g, p)) && RecoverWrites(g, p) == Installs(g, p, bs) + [w]
  {
    HomeWritesKeepLog(g, p, Installs(g, p, bs));
    var ws := RecoverWrites(g, p);
    assert ws[..|ws| - 1] == Installs(g, p, bs);
  }
}
