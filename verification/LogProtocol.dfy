/** Group commit as a state machine: begin_op, log_write and end_op of any number of
    concurrent operations, the single block writes of commit and of recovery, and
    crashes, interleaved in any order. */
module LogProtocol {
  import opened Common
  import opened LogDisk

  /** An operation between begin_op and end_op: how many blocks it has added to the log
      (a log_write of a block already there is absorbed and adds none), and whether one
      of its log_writes is past the unlocked size check but has not yet taken log.lock. */
  datatype Op = Op(id: nat, added: nat, checked: bool)

  /** One log_write, as an operation asked for it. */
  datatype Update = Update(op: nat, w: Write)

  /** Where the committing or recovering thread stands. */
  datatype Pc =
    | Running
    | CopyLog(tail: nat)   // write_log at tail, then write_head
    | Install(tail: nat)   // install_trans at tail, then the clearing write_head
    | CommitDone           // commit has returned, log.committing is still set
    | Recover(tail: nat)   // recover_from_log at tail, then the clearing write_head

  /** log.lh is blocks; pinned is the contents of the B_DIRTY buffers; held is the number of
      clean buffers that somebody holds, inside an operation or outside.  The last five
      fields are the specification's record: the disk at the start of the run, every
      update logged since (less those lost in crashes), the commit point, the
      operations that reached end_op, and the disk at the start of the commit or
      recovery under way. */
  datatype State = State(
    disk: Disk, pinned: map<int, Block>, held: nat, blocks: seq<int>, outstanding: int, pc: Pc,
    ops: seq<Op>, used: set<nat>,
    origin: Disk, history: seq<Update>, cp: nat, ended: set<nat>, base: Disk)

  datatype Event =
    | Hold                                  // bread, by an operation or a reader, of a clean block nobody holds
    | Drop                                  // brelse of such a buffer
    | Begin(id: nat)
    | Check(i: nat)
    | Append(i: nat, b: int, data: Block)
    | End(i: nat)
    | DiskWrite
    | Finish
    | Crash

  datatype Outcome = Ok(s: State) | Panic

  /** bread: the buffer if it is pinned, the disk otherwise. */
  function Bread(s: State, b: int): Block
    requires 0 <= b < |s.disk|
  {
    if b in s.pinned then s.pinned[b] else s.disk[b]
  }

  function IndexOf(bs: seq<int>, b: int): (i: nat)
    ensures i <= |bs|
    ensures i < |bs| ==> bs[i] == b
    ensures forall j | 0 <= j < i :: bs[j] != b
  {
    if bs == [] then 0 else if bs[0] == b then 0 else 1 + IndexOf(bs[1..], b)
  }

  /** log absorption: the slot scan of log_write. */
  function Absorb(bs: seq<int>, b: int): (r: seq<int>)
    ensures r == if b in bs then bs else bs + [b]
  {
    if IndexOf(bs, b) == |bs| then bs + [b] else bs
  }

  predicate CanRun(s: State)
  {
    !s.pc.Recover?
  }

  /** What the callers of log.c respect: operations are fresh, add at most MAXOPBLOCKS
      blocks each in any number of log_writes, log only blocks they hold a buffer of, and
      not the log itself. */
  predicate Enabled(g: Geometry, s: State, e: Event)
  {
    match e
    case Hold => CanRun(s)
    case Drop => CanRun(s) && s.held > 0
    case Begin(id) => CanRun(s) && id !in s.used
    case Check(i) => CanRun(s) && i < |s.ops| && !s.ops[i].checked
    case Append(i, b, _) =>
      && CanRun(s) && i < |s.ops| && s.ops[i].checked && IsHome(g, b)
      && (b in s.blocks || (s.ops[i].added < MAXOPBLOCKS && s.held > 0))
    case End(i) => CanRun(s) && i < |s.ops| && !s.ops[i].checked
    case DiskWrite => s.pc.CopyLog? || s.pc.Install? || s.pc.Recover?
    case Finish => s.pc.CommitDone?
    case Crash => true
  }

  /** The condition of log_write's first panic. */
  predicate LogFull(g: Geometry, s: State)
  {
    |s.blocks| >= LOGSIZE || |s.blocks| >= g.size - 1
  }

  /** The logged blocks have their place in the log region. */
  predicate Fits(g: Geometry, s: State)
  {
    |s.blocks| < g.size
  }

  /** The buffers with B_DIRTY set that a commit has left. */
  function Dirty(s: State): int
  {
    match s.pc
    case Running => |s.blocks|
    case CopyLog(_) => |s.blocks|
    case Install(t) => |s.blocks| - t
    case CommitDone => 0
    case Recover(_) => 0
  }

  /** bget finds no buffer for k more blocks that are not cached. */
  predicate NoBuffer(g: Geometry, s: State, k: nat)
  {
    Dirty(s) + s.held + k > g.nbuf
  }

  /** The buffers that the next block write of a commit or a recovery needs besides those of
      the logged blocks: one for the log; in a recovery, when nothing is dirty, one more. */
  function Needed(s: State): nat
  {
    if s.pc.Recover? && s.pc.tail < |s.blocks| then 2 else 1
  }

  /** Either the log fits its region, or it can never be committed for want of a buffer. */
  predicate Sane(g: Geometry, s: State)
  {
    && HeaderOk(g, s.disk)
    && |s.blocks| <= LOGSIZE
    && (Fits(g, s) || (|s.blocks| >= g.nbuf && (s.pc.Running? || s.pc == CopyLog(0))))
    && (forall i | 0 <= i < |s.blocks| :: IsHome(g, s.blocks[i]))
    && (s.pc.CopyLog? || s.pc.Install? || s.pc.Recover? ==> s.pc.tail <= |s.blocks|)
    && s.cp <= |s.history|
  }

  /** The block write the committing or recovering thread does next. */
  function NextWrite(g: Geometry, s: State): Write
    requires Sane(g, s) && Enabled(g, s, DiskWrite) && Fits(g, s)
  {
    match s.pc
    case CopyLog(t) =>
      if t < |s.blocks| then Write(g.start + 1 + t, Bread(s, s.blocks[t]))
      else Write(g.start, Head(s.disk[g.start], s.blocks))
    case Install(t) =>
      if t < |s.blocks| then Write(s.blocks[t], s.disk[g.start + 1 + t])
      else Write(g.start, Head(s.disk[g.start], []))
    case Recover(t) =>
      if t < |s.blocks| then Write(s.blocks[t], s.disk[g.start + 1 + t])
      else Write(g.start, Head(s.disk[g.start], []))
  }

  function AfterWrite(s: State): Pc
    requires s.pc.CopyLog? || s.pc.Install? || s.pc.Recover?
  {
    match s.pc
    case CopyLog(t) => if t < |s.blocks| then CopyLog(t + 1) else Install(0)
    case Install(t) => if t < |s.blocks| then Install(t + 1) else CommitDone
    case Recover(t) => if t < |s.blocks| then Recover(t + 1) else Running
  }

  /** The operation o after its log_write of b. */
  function Charged(o: Op, bs: seq<int>, b: int): Op
  {
    Op(o.id, o.added + |Absorb(bs, b)| - |bs|, false)
  }

  /** A commit or recovery after its next block write. */
  function Wrote(g: Geometry, s: State): State
    requires Sane(g, s) && Enabled(g, s, DiskWrite) && Fits(g, s)
  {
    var w := NextWrite(g, s);
    s.(disk := Put(s.disk, w), pinned := s.pinned - {w.b}, pc := AfterWrite(s),
       blocks := if AfterWrite(s).Running? then [] else s.blocks,
       cp := if s.pc.CopyLog? && AfterWrite(s).Install? then |s.history| else s.cp)
  }

  function Next(g: Geometry, s: State, e: Event): Outcome
    requires Sane(g, s) && Enabled(g, s, e)
  {
    match e
    case Hold => if NoBuffer(g, s, 1) then Panic else Ok(s.(held := s.held + 1))
    case Drop => Ok(s.(held := s.held - 1))
    case Begin(id) =>
      if !s.pc.Running? then Ok(s)                                                  // sleep
      else if |s.blocks| + (s.outstanding + 1) * MAXOPBLOCKS > LOGSIZE then Ok(s)  // sleep
      else Ok(s.(outstanding := s.outstanding + 1, ops := s.ops + [Op(id, 0, false)],
                 used := s.used + {id}))
    case Check(i) =>
      if LogFull(g, s) then Panic
      else if s.outstanding < 1 then Panic
      else Ok(s.(ops := s.ops[i := s.ops[i].(checked := true)]))
    case Append(i, b, data) =>
      Ok(s.(ops := s.ops[i := Charged(s.ops[i], s.blocks, b)],
            blocks := Absorb(s.blocks, b), pinned := s.pinned[b := data],
            held := s.held + |s.blocks| - |Absorb(s.blocks, b)|,
            history := s.history + [Update(s.ops[i].id, Write(b, data))]))
    case End(i) =>
      if !s.pc.Running? then Panic
      else
        var t := s.(outstanding := s.outstanding - 1, ops := Without(s.ops, i),
                    ended := s.ended + {s.ops[i].id});
        if t.outstanding == 0 then
          Ok(t.(pc := if |s.blocks| > 0 then CopyLog(0) else CommitDone, base := s.disk))
        else Ok(t)
    case DiskWrite => if NoBuffer(g, s, Needed(s)) then Panic else Ok(Wrote(g, s))
    case Finish => Ok(s.(pc := Running, blocks := []))
    case Crash =>
      Ok(s.(pinned := map[], held := 0, blocks := Logged(g, s.disk), outstanding := 0, ops := [],
            pc := Recover(0), history := s.history[..s.cp], base := s.disk))
  }

  function Init(d: Disk): State
  {
    State(d, map[], 0, [], 0, Running, [], {}, d, [], 0, {}, d)
  }

  predicate GoodStart(g: Geometry, d: Disk)
  {
    HeaderOk(g, d) && d[g.start][0] == 0
  }

  // ------------------------------------------------------------ invariant

  function Writes(h: seq<Update>): (ws: seq<Write>)
    ensures |ws| == |h|
  {
    seq(|h|, i requires 0 <= i < |h| => h[i].w)
  }

  /** The file system after every update logged so far. */
  function Current(s: State): (d: Disk)
    ensures |d| == |s.origin|
  {
    Perform(s.origin, Writes(s.history))
  }

  /** The file system at the last commit point. */
  function Durable(s: State): (d: Disk)
    requires s.cp <= |s.history|
    ensures |d| == |s.origin|
  {
    Perform(s.origin, Writes(s.history[..s.cp]))
  }

  /** Blocks that outstanding operations may still add, up to l each. */
  function Unspent(ops: seq<Op>, l: int): int
  {
    if ops == [] then 0 else (l - ops[0].added) + Unspent(ops[1..], l)
  }

  /** The reservation scheme of begin_op. */
  predicate Reserved(s: State)
  {
    && s.outstanding == |s.ops|
    && |s.blocks| + Unspent(s.ops, MAXOPBLOCKS) <= LOGSIZE
    && forall i | 0 <= i < |s.ops| :: s.ops[i].added <= MAXOPBLOCKS
  }

  /** Operations are whole: nothing committed belongs to an operation still running,
      and no operation has updates on both sides of the commit point. */
  predicate Whole(s: State)
  {
    && s.cp <= |s.history|
    && s.ended <= s.used
    && (forall i | 0 <= i < |s.ops| :: s.ops[i].id in s.used && s.ops[i].id !in s.ended)
    && (forall i, j | 0 <= i < j < |s.ops| :: s.ops[i].id != s.ops[j].id)
    && (forall i | 0 <= i < s.cp :: s.history[i].op in s.ended)
    && (forall i | 0 <= i < |s.history| ::
          s.history[i].op in s.ended || exists k :: 0 <= k < |s.ops| && s.ops[k].id == s.history[i].op)
    && (forall i, j | 0 <= i < s.cp <= j < |s.history| :: s.history[i].op != s.history[j].op)
  }

  /** Outside the pinned blocks the disk d is current. */
  predicate CleanElsewhere(g: Geometry, s: State, d: Disk)
  {
    && |d| == |s.origin|
    && forall b | IsHome(g, b) && 0 <= b < |d| && b !in s.blocks :: d[b] == Current(s)[b]
  }

  predicate PinnedCurrent(g: Geometry, s: State)
  {
    && |s.origin| == g.total
    && forall b | b in s.pinned :: b in s.blocks && IsHome(g, b) && s.pinned[b] == Current(s)[b]
  }

  /** The contents write_log copies. */
  function Vals(g: Geometry, s: State): (vs: seq<Block>)
    requires |s.origin| == g.total
    requires forall i | 0 <= i < |s.blocks| :: IsHome(g, s.blocks[i])
    ensures |vs| == |s.blocks|
  {
    assert |Current(s)| == g.total;
    seq(|s.blocks|, i requires 0 <= i < |s.blocks| && IsHome(g, s.blocks[i]) => Current(s)[s.blocks[i]])
  }

  predicate RunningInv(g: Geometry, s: State)
    requires Sane(g, s)
  {
    && s.disk[g.start][0] == 0
    && Distinct(s.blocks)
    && CleanElsewhere(g, s, s.disk)
    && (forall i | 0 <= i < |s.blocks| :: s.blocks[i] in s.pinned)
    && Home(g, s.disk) == Home(g, Durable(s))
    && (s.ops == [] ==> s.blocks == [])
    && (s.blocks == [] ==> s.cp == |s.history|)
  }

  /** How many writes of CommitWrites have been done. */
  function Done(s: State): nat
    requires s.pc.CopyLog? || s.pc.Install? || s.pc.CommitDone?
  {
    match s.pc
    case CopyLog(t) => t
    case Install(t) => |s.blocks| + 1 + t
    case CommitDone => if s.blocks == [] then 0 else 2 * |s.blocks| + 2
  }

  /** Exactly the blocks bs are pinned. */
  predicate Pins(pinned: map<int, Block>, bs: seq<int>)
  {
    (forall b | b in pinned :: b in bs) && (forall b | b in bs :: b in pinned)
  }

  predicate CommitInv(g: Geometry, s: State)
    requires Sane(g, s) && |s.origin| == g.total
    requires s.pc.CopyLog? || s.pc.Install? || s.pc.CommitDone?
  {
    && s.ops == []
    && Distinct(s.blocks)
    && (!s.pc.CommitDone? ==> s.blocks != [])
    && Committable(g, s.base, s.blocks)
    && CleanElsewhere(g, s, s.base)
    && s.disk == Perform(s.base, CommitWrites(g, s.base[g.start], s.blocks, Vals(g, s))[..Done(s)])
    && match s.pc
       case CopyLog(t) => && (forall i | 0 <= i < |s.blocks| :: s.blocks[i] in s.pinned)
                          && Home(g, s.base) == Home(g, Durable(s))
       case Install(t) => s.cp == |s.history| && Pins(s.pinned, s.blocks[t..])
       case _ => s.cp == |s.history| && s.pinned == map[]
  }

  /** A commit that never gets its first buffer. */
  predicate StuckInv(g: Geometry, s: State)
    requires Sane(g, s)
  {
    && s.ops == [] && s.pc == CopyLog(0)
    && s.disk[g.start][0] == 0
    && Distinct(s.blocks)
    && (forall i | 0 <= i < |s.blocks| :: s.blocks[i] in s.pinned)
    && Home(g, s.disk) == Home(g, Durable(s))
  }

  predicate RecoverInv(g: Geometry, s: State)
    requires Sane(g, s) && s.pc.Recover?
  {
    && s.ops == [] && s.pinned == map[] && s.held == 0
    && HeaderOk(g, s.base)
    && s.blocks == Logged(g, s.base)
    && s.disk == Perform(s.base, RecoverWrites(g, s.base)[..s.pc.tail])
    && s.cp == |s.history|
    && Home(g, Recovered(g, s.base)) == Home(g, Durable(s))
  }

  predicate Inv(g: Geometry, s: State)
  {
    && Sane(g, s)
    && |s.origin| == g.total
    && Reserved(s)
    && Whole(s)
    && Dirty(s) + s.held <= g.nbuf
    && PinnedCurrent(g, s)
    && match s.pc
       case Running => RunningInv(g, s)
       case Recover(_) => RecoverInv(g, s)
       case _ => if Fits(g, s) then CommitInv(g, s) else StuckInv(g, s)
  }

  // --------------------------------------------------- what Inv says

  lemma {:induction false} LatestConst(ws: seq<Write>, k: nat, v: Block, dflt: Block)
    requires k < |ws|
    requires forall i | 0 <= i < |ws| && ws[i].b == ws[k].b :: ws[i].data == v
    ensures Latest(ws, ws[k].b, dflt) == v
  {
    if k < |ws| - 1 && ws[|ws| - 1].b != ws[k].b {
      LatestConst(ws[..|ws| - 1], k, v, dflt);
    }
  }

  /** Installing the logged blocks brings a disk that is clean elsewhere up to date. */
  lemma InstallsCurrent(g: Geometry, s: State, d: Disk)
    requires |s.origin| == g.total
    requires forall i | 0 <= i < |s.blocks| :: IsHome(g, s.blocks[i])
    requires CleanElsewhere(g, s, d)
    ensures Home(g, Perform(d, HomePhase(s.blocks, Vals(g, s)))) == Home(g, Current(s))
  {
    var ws := HomePhase(s.blocks, Vals(g, s));
    var e := Perform(d, ws);
    forall b | 0 <= b < |d| && !InLog(g, b)
      ensures e[b] == Current(s)[b]
    {
      PerformAt(d, ws, b);
      if k :| 0 <= k < |s.blocks| && s.blocks[k] == b {
        LatestConst(ws, k, Current(s)[b], d[b]);
      } else {
        PerformUntouched(d, ws, b);
      }
    }
    SameHome(g, e, Current(s));
  }

  lemma DurableWhenAll(s: State)
    requires s.cp == |s.history|
    ensures Durable(s) == Current(s)
  {
    assert s.history[..s.cp] == s.history;
  }

  /** The crash theorem at one state: recovering the disk as it stands now gives the
      file system at the last commit point. */
  lemma CrashSafe(g: Geometry, s: State)
    requires Inv(g, s)
    ensures Home(g, Recovered(g, s.disk)) == Home(g, Durable(s))
  {
    match s.pc
    case Running =>
      ClearRecovers(g, s.disk);
    case Recover(t) =>
      RecoveryRestartable(g, s.base, t);
    case _ => if Fits(g, s) { CrashSafeCommit(g, s); } else { ClearRecovers(g, s.disk); }
  }

  lemma CrashSafeCommit(g: Geometry, s: State)
    requires Inv(g, s) && Fits(g, s) && (s.pc.CopyLog? || s.pc.Install? || s.pc.CommitDone?)
    ensures Home(g, Recovered(g, s.disk)) == Home(g, Durable(s))
  {
    var vs := Vals(g, s);
    CommitAtomic(g, s.base, s.blocks, vs, Done(s));
    InstallsCurrent(g, s, s.base);
    if !s.pc.CopyLog? {
      DurableWhenAll(s);
    }
  }

  lemma PinsCount(pinned: map<int, Block>, bs: seq<int>)
    requires Distinct(bs) && Pins(pinned, bs)
    ensures |pinned| == |bs|
  {
    DistinctSize(bs);
    forall b ensures b in pinned.Keys <==> b in Members(bs) {
      assert b in Members(bs) <==> b in bs;
    }
    assert pinned.Keys == Members(bs);
    assert |pinned| == |pinned.Keys|;
  }

  /** Dirty is the number of the buffers with B_DIRTY set; with those held they are never
      more than there are. */
  lemma DirtyCount(g: Geometry, s: State)
    requires Inv(g, s)
    ensures |s.pinned| == Dirty(s) && |s.pinned| + s.held <= g.nbuf
  {
    match s.pc
    case Install(t) =>
      SuffixDistinct(s.blocks, t);
      PinsCount(s.pinned, s.blocks[t..]);
    case Running => PinsCount(s.pinned, s.blocks);
    case CopyLog(_) => PinsCount(s.pinned, s.blocks);
    case _ =>
  }

  lemma SuffixDistinct(bs: seq<int>, t: nat)
    requires Distinct(bs) && t <= |bs|
    ensures Distinct(bs[t..])
  {
    var r := bs[t..];
    assert forall i | 0 <= i < |r| :: r[i] == bs[t + i];
  }

  /** A read in a running system sees the last logged update of every block. */
  lemma ReadsCurrent(g: Geometry, s: State, b: int)
    requires Inv(g, s) && s.pc.Running? && IsHome(g, b)
    ensures Bread(s, b) == Current(s)[b]
  {
  }

  // ------------------------------------------------------- preservation

  lemma {:induction false} UnspentAppend(ops: seq<Op>, o: Op, l: int)
    ensures Unspent(ops + [o], l) == Unspent(ops, l) + l - o.added
  {
    if ops == [] {
      assert [] + [o] == [o];
    } else {
      assert (ops + [o])[1..] == ops[1..] + [o];
      UnspentAppend(ops[1..], o, l);
    }
  }

  lemma {:induction false} UnspentUpdate(ops: seq<Op>, i: nat, o: Op, l: int)
    requires i < |ops|
    ensures Unspent(ops[i := o], l) == Unspent(ops, l) + ops[i].added - o.added
  {
    if i == 0 {
      assert ops[i := o][1..] == ops[1..];
    } else {
      assert ops[i := o][1..] == ops[1..][i - 1 := o];
      UnspentUpdate(ops[1..], i - 1, o, l);
    }
  }

  lemma {:induction false} UnspentWithout(ops: seq<Op>, i: nat, l: int)
    requires i < |ops|
    ensures Unspent(Without(ops, i), l) == Unspent(ops, l) - (l - ops[i].added)
  {
    if i == 0 {
      assert Without(ops, i) == ops[1..];
    } else {
      assert Without(ops, i)[1..] == Without(ops[1..], i - 1);
      UnspentWithout(ops[1..], i - 1, l);
    }
  }

  /** The reservation an operation with blocks left still holds. */
  lemma {:induction false} UnspentBounds(ops: seq<Op>, i: nat, l: int)
    requires forall j | 0 <= j < |ops| :: ops[j].added <= l
    requires i <= |ops|
    ensures 0 <= Unspent(ops, l) <= l * |ops|
    ensures i < |ops| ==> Unspent(ops, l) >= l - ops[i].added
  {
    if ops != [] {
      UnspentBounds(ops[1..], if i == 0 then 0 else i - 1, l);
      assert l * |ops| == l + l * |ops[1..]|;
    }
  }

  lemma BeginKeeps(g: Geometry, s: State, id: nat)
    requires Inv(g, s) && Enabled(g, s, Begin(id))
    ensures Next(g, s, Begin(id)).Ok? && Inv(g, Next(g, s, Begin(id)).s)
  {
    var t := Next(g, s, Begin(id)).s;
    if t != s {
      UnspentAppend(s.ops, Op(id, 0, false), MAXOPBLOCKS);
      UnspentBounds(s.ops, 0, MAXOPBLOCKS);
      WholeBegin(s, id);
    }
  }

  lemma WholeBegin(s: State, id: nat)
    requires Whole(s) && id !in s.used
    ensures Whole(s.(outstanding := s.outstanding + 1, ops := s.ops + [Op(id, 0, false)], used := s.used + {id}))
  {
    var t := s.(outstanding := s.outstanding + 1, ops := s.ops + [Op(id, 0, false)], used := s.used + {id});
    forall i | 0 <= i < |t.history|
      ensures t.history[i].op in t.ended || exists k :: 0 <= k < |t.ops| && t.ops[k].id == t.history[i].op
    {
      if s.history[i].op !in s.ended {
        var k :| 0 <= k < |s.ops| && s.ops[k].id == s.history[i].op;
        assert t.ops[k].id == t.history[i].op;
      }
    }
  }

  /** log_write panics only on a log that is full, or fills its region; never for want
      of a transaction. */
  lemma CheckKeeps(g: Geometry, s: State, i: nat)
    requires Inv(g, s) && Enabled(g, s, Check(i))
    ensures var r := Next(g, s, Check(i));
            if LogFull(g, s) then r.Panic? else r.Ok? && Inv(g, r.s)
  {
    var o := s.ops[i].(checked := true);
    UnspentUpdate(s.ops, i, o, MAXOPBLOCKS);
    WholeSameIds(s, i, o);
  }

  /** An operation that may still add a block finds room for it. */
  lemma RoomForMore(g: Geometry, s: State, i: nat)
    requires Reserved(s) && i < |s.ops| && s.ops[i].added < MAXOPBLOCKS
    ensures |s.blocks| < LOGSIZE
  {
    UnspentBounds(s.ops, i, MAXOPBLOCKS);
  }

  lemma WholeSameIds(s: State, i: nat, o: Op)
    requires Whole(s) && i < |s.ops| && o.id == s.ops[i].id
    ensures Whole(s.(ops := s.ops[i := o]))
  {
    var t := s.(ops := s.ops[i := o]);
    forall j | 0 <= j < |t.history|
      ensures t.history[j].op in t.ended || exists k :: 0 <= k < |t.ops| && t.ops[k].id == t.history[j].op
    {
      if s.history[j].op !in s.ended {
        var k :| 0 <= k < |s.ops| && s.ops[k].id == s.history[j].op;
        assert t.ops[k].id == t.history[j].op;
      }
    }
  }

  lemma AbsorbDistinct(bs: seq<int>, b: int)
    requires Distinct(bs)
    ensures Distinct(Absorb(bs, b)) && b in Absorb(bs, b)
    ensures forall x :: x in Absorb(bs, b) <==> x in bs || x == b
  {
    if b !in bs {
      assert Absorb(bs, b)[|bs|] == b;
    }
  }

  lemma CurrentAppend(s: State, t: State, u: Update)
    requires t.origin == s.origin && t.history == s.history + [u]
    ensures Current(t) == Put(Current(s), u.w)
  {
    assert Writes(t.history) == Writes(s.history) + [u.w];
    PerformSnoc(s.origin, Writes(t.history), |s.history|);
    assert Writes(t.history)[..|s.history|] == Writes(s.history);
    assert Writes(t.history)[..|s.history| + 1] == Writes(t.history);
  }

  lemma DurableAppend(s: State, t: State, u: Update)
    requires s.cp <= |s.history|
    requires t.origin == s.origin && t.history == s.history + [u] && t.cp == s.cp
    ensures Durable(t) == Durable(s)
  {
    assert t.history[..t.cp] == s.history[..s.cp];
  }

  /** A log_write moves one block from the reservation to the log, or none. */
  lemma ReservedAppend(s: State, t: State, i: nat, b: int)
    requires Reserved(s) && i < |s.ops| && (b in s.blocks || s.ops[i].added < MAXOPBLOCKS)
    requires t.ops == s.ops[i := Charged(s.ops[i], s.blocks, b)] && t.blocks == Absorb(s.blocks, b)
    requires t.outstanding == s.outstanding
    ensures Reserved(t) && |t.blocks| <= LOGSIZE
  {
    UnspentUpdate(s.ops, i, Charged(s.ops[i], s.blocks, b), MAXOPBLOCKS);
    UnspentBounds(t.ops, i, MAXOPBLOCKS);
  }

  lemma AppendKeeps(g: Geometry, s: State, i: nat, b: int, data: Block)
    requires Inv(g, s) && Enabled(g, s, Append(i, b, data))
    requires |Absorb(s.blocks, b)| < g.size || |Absorb(s.blocks, b)| >= g.nbuf
    ensures Next(g, s, Append(i, b, data)).Ok? && Inv(g, Next(g, s, Append(i, b, data)).s)
  {
    assert s.pc.Running?;
    var t := Next(g, s, Append(i, b, data)).s;
    ReservedAppend(s, t, i, b);
    AppendWhole(g, s, t, i, b, data);
    var u := Update(s.ops[i].id, Write(b, data));
    CurrentAppend(s, t, u);
    DurableAppend(s, t, u);
    AppendSane(g, s, t, b);
    AppendRunning(g, s, t, b, data);
  }

  lemma AppendSane(g: Geometry, s: State, t: State, b: int)
    requires Sane(g, s) && IsHome(g, b) && t.blocks == Absorb(s.blocks, b) && |t.blocks| <= LOGSIZE
    requires |t.blocks| < g.size || |t.blocks| >= g.nbuf
    requires t.disk == s.disk && t.pc == s.pc == Running && t.cp == s.cp && |t.history| == |s.history| + 1
    ensures Sane(g, t)
  {
  }

  lemma AppendWhole(g: Geometry, s: State, t: State, i: nat, b: int, data: Block)
    requires Whole(s) && i < |s.ops|
    requires t.ops == s.ops[i := Charged(s.ops[i], s.blocks, b)]
    requires t.history == s.history + [Update(s.ops[i].id, Write(b, data))]
    requires t.cp == s.cp && t.ended == s.ended && t.used == s.used
    ensures Whole(t)
  {
    var o := Charged(s.ops[i], s.blocks, b);
    WholeSameIds(s, i, o);
    WholeAppend(s.(ops := s.ops[i := o]), t, i, Update(s.ops[i].id, Write(b, data)));
  }

  /** What log_write keeps of the running system: pinned blocks are current, the rest of
      the disk is, and the durable state does not move. */
  lemma AppendRunning(g: Geometry, s: State, t: State, b: int, data: Block)
    requires Inv(g, s) && s.pc.Running? && IsHome(g, b)
    requires t.disk == s.disk && t.origin == s.origin && t.blocks == Absorb(s.blocks, b)
             && t.pinned == s.pinned[b := data]
    requires t.cp == s.cp && |t.history| == |s.history| + 1 && t.ops != [] && t.pc == s.pc && Sane(g, t)
    requires Current(t) == Put(Current(s), Write(b, data)) && Durable(t) == Durable(s)
    ensures RunningInv(g, t) && PinnedCurrent(g, t)
  {
    AbsorbDistinct(s.blocks, b);
    forall k | 0 <= k < |t.blocks| ensures t.blocks[k] in t.pinned {
      assert t.blocks[k] in t.blocks;
    }
  }

  lemma WholeAppend(s: State, t: State, i: nat, u: Update)
    requires Whole(s) && i < |s.ops| && u.op == s.ops[i].id
    requires t.history == s.history + [u] && t.cp == s.cp && t.ops == s.ops && t.ended == s.ended && t.used == s.used
    ensures Whole(t)
  {
  }

  lemma WholeEnd(s: State, t: State, i: nat)
    requires Whole(s) && i < |s.ops|
    requires t.history == s.history && t.cp == s.cp && t.used == s.used
    requires t.ops == Without(s.ops, i) && t.ended == s.ended + {s.ops[i].id}
    ensures Whole(t)
  {
    forall j | 0 <= j < |t.history|
      ensures t.history[j].op in t.ended || exists k :: 0 <= k < |t.ops| && t.ops[k].id == t.history[j].op
    {
      if s.history[j].op !in t.ended {
        var k :| 0 <= k < |s.ops| && s.ops[k].id == s.history[j].op;
        var k' := if k < i then k else k - 1;
        assert t.ops[k'].id == t.history[j].op;
      }
    }
  }

  /** The last end_op starts the commit. */
  lemma LastEnd(g: Geometry, s: State, t: State)
    requires Inv(g, s) && s.pc.Running? && |s.ops| == 1
    requires t == s.(outstanding := 0, ops := [], ended := s.ended + {s.ops[0].id},
                     pc := if |s.blocks| > 0 then CopyLog(0) else CommitDone, base := s.disk)
    ensures Sane(g, t) && PinnedCurrent(g, t) && (if Fits(g, t) then CommitInv(g, t) else StuckInv(g, t))
  {
    assert Current(t) == Current(s) && Durable(t) == Durable(s);
    if Fits(g, t) {
      assert CommitWrites(g, t.base[g.start], t.blocks, Vals(g, t))[..0] == [];
      assert Perform(t.base, []) == t.base;
    }
    if s.blocks == [] {
      assert forall b :: b in s.pinned ==> b in s.blocks;
      assert s.pinned == map[];
    }
  }

  lemma OtherEnd(g: Geometry, s: State, t: State, i: nat)
    requires Inv(g, s) && s.pc.Running? && i < |s.ops| && |s.ops| > 1
    requires t == s.(outstanding := s.outstanding - 1, ops := Without(s.ops, i), ended := s.ended + {s.ops[i].id})
    ensures Sane(g, t) && RunningInv(g, t) && PinnedCurrent(g, t)
  {
    assert Current(t) == Current(s) && Durable(t) == Durable(s);
    assert |t.ops| == |s.ops| - 1;
  }

  lemma ReservedEnd(s: State, t: State, i: nat)
    requires Reserved(s) && i < |s.ops|
    requires t.blocks == s.blocks && t.ops == Without(s.ops, i) && t.outstanding == s.outstanding - 1
    ensures Reserved(t)
  {
    UnspentWithout(s.ops, i, MAXOPBLOCKS);
    UnspentBounds(s.ops, i, MAXOPBLOCKS);
  }

  lemma EndKeeps(g: Geometry, s: State, i: nat)
    requires Inv(g, s) && Enabled(g, s, End(i))
    ensures Next(g, s, End(i)).Ok? && Inv(g, Next(g, s, End(i)).s)
  {
    assert s.pc.Running?;
    var t := Next(g, s, End(i)).s;
    ReservedEnd(s, t, i);
    WholeEnd(s, t, i);
    if |s.ops| == 1 {
      LastEnd(g, s, t);
    } else {
      OtherEnd(g, s, t, i);
    }
  }

  predicate Committing(g: Geometry, s: State)
    requires s.pc.CopyLog? || s.pc.Install? || s.pc.CommitDone?
  {
    Sane(g, s) && Fits(g, s) && |s.origin| == g.total && PinnedCurrent(g, s) && CommitInv(g, s)
  }

  /** The write under way is the next one of CommitWrites. */
  lemma CommitNext(g: Geometry, s: State)
    requires (s.pc.CopyLog? || s.pc.Install?) && Committing(g, s)
    ensures var ws := CommitWrites(g, s.base[g.start], s.blocks, Vals(g, s));
            Done(s) < |ws| == 2 * |s.blocks| + 2 && NextWrite(g, s) == ws[Done(s)]
  {
    CommitStages(g, s.base, s.blocks, Vals(g, s), Done(s));
  }

  /** What a commit write does not change. */
  lemma CommitSame(g: Geometry, s: State)
    requires (s.pc.CopyLog? || s.pc.Install?) && Committing(g, s)
    ensures var t := Wrote(g, s);
            && t == s.(disk := t.disk, pinned := t.pinned, pc := t.pc, cp := t.cp)
            && (t.pc.CopyLog? || t.pc.Install? || t.pc.CommitDone?) && Done(t) == Done(s) + 1
            && (t.pc.CopyLog? ==> s.pc.CopyLog?)
            && (!t.pc.CommitDone? ==> t.pc.tail <= |t.blocks|)
            && (t.pc.CopyLog? ==> t.cp == s.cp) && (!t.pc.CopyLog? ==> t.cp == |s.history|)
            && Current(t) == Current(s) && Vals(g, t) == Vals(g, s)
            && (forall b | b in t.pinned :: b in s.pinned && t.pinned[b] == s.pinned[b])
  {
  }

  /** The disk after a commit write. */
  lemma CommitDisk(g: Geometry, s: State)
    requires (s.pc.CopyLog? || s.pc.Install?) && Committing(g, s)
    ensures var ws := CommitWrites(g, s.base[g.start], s.blocks, Vals(g, s));
            var d := Put(s.disk, NextWrite(g, s));
            Done(s) < |ws| && d == Perform(s.base, ws[..Done(s) + 1]) && HeaderOk(g, d)
  {
    CommitNext(g, s);
    var vs, k := Vals(g, s), Done(s);
    assert NextWrite(g, s) == CommitWrites(g, s.base[g.start], s.blocks, vs)[k];
    assert s.disk == Perform(s.base, CommitWrites(g, s.base[g.start], s.blocks, vs)[..k]);
    CommitPrefix(g, s.base, s.blocks, vs, k, s.disk);
  }

  /** One more write of CommitWrites. */
  lemma CommitPrefix(g: Geometry, base: Disk, bs: seq<int>, vs: seq<Block>, k: nat, d: Disk)
    requires Committable(g, base, bs) && |vs| == |bs| && k < |CommitWrites(g, base[g.start], bs, vs)|
    requires d == Perform(base, CommitWrites(g, base[g.start], bs, vs)[..k])
    ensures var ws := CommitWrites(g, base[g.start], bs, vs);
            Put(d, ws[k]) == Perform(base, ws[..k + 1]) && HeaderOk(g, Put(d, ws[k]))
  {
    PerformSnoc(base, CommitWrites(g, base[g.start], bs, vs), k);
    CommitHeader(g, base, bs, vs, k + 1);
  }

  lemma CommitHeader(g: Geometry, d: Disk, bs: seq<int>, vs: seq<Block>, k: int)
    requires Committable(g, d, bs) && |vs| == |bs| && 0 <= k <= |CommitWrites(g, d[g.start], bs, vs)|
    ensures HeaderOk(g, Perform(d, CommitWrites(g, d[g.start], bs, vs)[..k]))
  {
    CommitAtomic(g, d, bs, vs, k);
  }

  lemma CommitWriteKeeps(g: Geometry, s: State)
    requires Inv(g, s) && Fits(g, s) && (s.pc.CopyLog? || s.pc.Install?)
    ensures Inv(g, Wrote(g, s))
  {
    CommitStep(g, s);
    WholeCommit(s, Wrote(g, s));
  }

  /** One write of a commit under way. */
  lemma CommitStep(g: Geometry, s: State)
    requires (s.pc.CopyLog? || s.pc.Install?) && Committing(g, s)
    ensures var t := Wrote(g, s);
            && t == s.(disk := t.disk, pinned := t.pinned, pc := t.pc, cp := t.cp)
            && (t.pc.CopyLog? || t.pc.Install? || t.pc.CommitDone?) && Dirty(t) <= Dirty(s)
            && (t.cp == s.cp || t.cp == |s.history|) && Committing(g, t)
  {
    CommitSame(g, s);
    CommitDisk(g, s);
    CommitPins(g, s);
    CommitAssembled(g, s, Wrote(g, s));
  }

  ghost predicate PinsLeft(t: State)
  {
    match t.pc
    case CopyLog(_) => forall i | 0 <= i < |t.blocks| :: t.blocks[i] in t.pinned
    case Install(k) => k <= |t.blocks| && Pins(t.pinned, t.blocks[k..])
    case _ => t.pinned == map[]
  }

  lemma CommitAssembled(g: Geometry, s: State, t: State)
    requires (s.pc.CopyLog? || s.pc.Install?) && Committing(g, s)
    requires t == s.(disk := t.disk, pinned := t.pinned, pc := t.pc, cp := t.cp)
    requires (t.pc.CopyLog? || t.pc.Install? || t.pc.CommitDone?) && (t.pc.CopyLog? ==> s.pc.CopyLog?)
    requires !t.pc.CommitDone? ==> t.pc.tail <= |t.blocks|
    requires (t.pc.CopyLog? ==> t.cp == s.cp) && (!t.pc.CopyLog? ==> t.cp == |s.history|)
    requires Current(t) == Current(s) && Vals(g, t) == Vals(g, s) && HeaderOk(g, t.disk) && PinsLeft(t)
    requires forall b | b in t.pinned :: b in s.pinned && t.pinned[b] == s.pinned[b]
    requires t.disk == Perform(s.base, CommitWrites(g, s.base[g.start], s.blocks, Vals(g, s))[..Done(t)])
    ensures Sane(g, t) && CommitInv(g, t) && PinnedCurrent(g, t)
  {
    assert s.pc.CopyLog? && t.pc.CopyLog? ==> Durable(t) == Durable(s);
  }

  lemma WholeCommit(s: State, t: State)
    requires Whole(s) && s.ops == []
    requires t.history == s.history && t.used == s.used && t.ops == s.ops && t.ended == s.ended
    requires t.cp == s.cp || t.cp == |s.history|
    ensures Whole(t)
  {
  }

  lemma UnpinNext(bs: seq<int>, k: nat, pinned: map<int, Block>)
    requires Distinct(bs) && k < |bs| && Pins(pinned, bs[k..])
    ensures Pins(pinned - {bs[k]}, bs[k + 1..])
  {
    assert bs[k..] == [bs[k]] + bs[k + 1..];
  }

  lemma PinsStep(s: State, t: State, b: int)
    requires (s.pc.CopyLog? || s.pc.Install?) && s.pc.tail <= |s.blocks| && Distinct(s.blocks) && PinsLeft(s)
    requires forall x | x in s.pinned :: x in s.blocks
    requires t.blocks == s.blocks && t.pc == AfterWrite(s) && t.pinned == s.pinned - {b}
    requires if s.pc.Install? && s.pc.tail < |s.blocks| then b == s.blocks[s.pc.tail] else b !in s.pinned
    ensures PinsLeft(t)
  {
    if s.pc.Install? && s.pc.tail < |s.blocks| {
      UnpinNext(s.blocks, s.pc.tail, s.pinned);
    } else if s.pc.Install? {
      assert s.blocks[s.pc.tail..] == [];
      assert forall x :: x !in s.pinned;
      assert s.pinned == map[];
    } else if s.pc.tail == |s.blocks| {
      assert s.blocks[0..] == s.blocks;
    }
  }

  /** Which buffers stay pinned through one commit write: exactly the blocks not yet
      installed.  A block is unpinned by the very write that installs it. */
  lemma CommitPins(g: Geometry, s: State)
    requires (s.pc.CopyLog? || s.pc.Install?) && Committing(g, s)
    ensures PinsLeft(Wrote(g, s))
  {
    var b := NextWrite(g, s).b;
    if s.pc.CopyLog? || s.pc.tail == |s.blocks| {
      assert InLog(g, b);
      assert b !in s.pinned;
    }
    assert PinsLeft(s);
    PinsStep(s, Wrote(g, s), b);
  }

  lemma RecoverNext(g: Geometry, s: State)
    requires Sane(g, s) && s.pc.Recover? && RecoverInv(g, s)
    ensures var d := Put(s.disk, NextWrite(g, s));
            d == Perform(s.base, RecoverWrites(g, s.base)[..s.pc.tail + 1]) && HeaderOk(g, d)
  {
    RecoverStages(g, s.base, s.pc.tail);
    assert NextWrite(g, s) == RecoverWrites(g, s.base)[s.pc.tail];
    RecoverPrefix(g, s.base, s.pc.tail, s.disk);
  }

  /** One more write of RecoverWrites. */
  lemma RecoverPrefix(g: Geometry, base: Disk, k: nat, d: Disk)
    requires HeaderOk(g, base) && k < |RecoverWrites(g, base)| && d == Perform(base, RecoverWrites(g, base)[..k])
    ensures var ws := RecoverWrites(g, base);
            Put(d, ws[k]) == Perform(base, ws[..k + 1]) && HeaderOk(g, Put(d, ws[k]))
  {
    PerformSnoc(base, RecoverWrites(g, base), k);
    RecoveryRestartable(g, base, k + 1);
  }

  /** The last write of a recovery makes the disk itself current. */
  lemma RecoverEnds(g: Geometry, s: State)
    requires Inv(g, s) && s.pc.Recover? && s.pc.tail == |s.blocks|
    ensures var t := Wrote(g, s);
            t.disk[g.start][0] == 0 && Home(g, t.disk) == Home(g, Durable(t)) && CleanElsewhere(g, t, t.disk)
  {
    var t := Wrote(g, s);
    var ws := RecoverWrites(g, s.base);
    RecoverNext(g, s);
    assert ws[..s.pc.tail + 1] == ws;
    RecoveryCompletes(g, s.base);
    DurableWhenAll(t);
    forall b | IsHome(g, b) ensures t.disk[b] == Current(t)[b] {
      SameHomeAt(g, t.disk, Current(t), b);
    }
  }

  lemma RecoverWriteKeeps(g: Geometry, s: State)
    requires Inv(g, s) && s.pc.Recover?
    ensures Inv(g, Wrote(g, s))
  {
    var t := Wrote(g, s);
    RecoverNext(g, s);
    assert t.pinned == map[];
    assert Current(t) == Current(s) && Durable(t) == Durable(s);
    if t.pc.Running? {
      RecoverEnds(g, s);
    }
  }

  /** A finished commit has brought the disk itself up to date. */
  lemma FinishDisk(g: Geometry, s: State)
    requires s.pc.CommitDone? && Committing(g, s)
    ensures HeaderOk(g, s.disk) && s.disk[g.start][0] == 0 && Home(g, s.disk) == Home(g, Current(s))
  {
    var vs := Vals(g, s);
    var ws := CommitWrites(g, s.base[g.start], s.blocks, vs);
    assert ws[..Done(s)] == ws;
    CommitCompletes(g, s.base, s.blocks, vs);
    InstallsCurrent(g, s, s.base);
  }

  lemma FinishKeeps(g: Geometry, s: State)
    requires Inv(g, s) && s.pc.CommitDone?
    ensures Next(g, s, Finish).Ok? && Inv(g, Next(g, s, Finish).s)
  {
    FinishDisk(g, s);
    FinishRunning(g, s, Next(g, s, Finish).s);
  }

  lemma FinishRunning(g: Geometry, s: State, t: State)
    requires Sane(g, s) && |s.origin| == g.total && s.ops == [] && s.pinned == map[] && s.cp == |s.history|
    requires s.disk[g.start][0] == 0 && Home(g, s.disk) == Home(g, Current(s))
    requires t == s.(pc := Running, blocks := [])
    ensures Sane(g, t) && RunningInv(g, t) && PinnedCurrent(g, t)
  {
    DurableWhenAll(s);
    assert Durable(t) == Durable(s) && Current(t) == Current(s);
    forall b | IsHome(g, b) ensures t.disk[b] == Current(t)[b] {
      SameHomeAt(g, t.disk, Current(t), b);
    }
  }

  lemma CrashKeeps(g: Geometry, s: State)
    requires Inv(g, s)
    ensures Next(g, s, Crash).Ok? && Inv(g, Next(g, s, Crash).s)
  {
    var t := Next(g, s, Crash).s;
    CrashSafe(g, s);
    assert t.history[..t.cp] == s.history[..s.cp];
    assert RecoverWrites(g, t.base)[..0] == [];
  }

  /** The specification's view does not depend on clean buffers. */
  lemma HeldFrame(g: Geometry, s: State, t: State)
    requires Sane(g, s) && |s.origin| == g.total && PinnedCurrent(g, s) && Whole(s) && Reserved(s)
    requires t == s.(held := t.held)
    ensures Sane(g, t) && PinnedCurrent(g, t) && Whole(t) && Reserved(t)
    ensures Current(t) == Current(s) && Durable(t) == Durable(s) && Vals(g, t) == Vals(g, s)
    ensures s.pc.Running? && RunningInv(g, s) ==> RunningInv(g, t)
    ensures s.pc.CopyLog? && StuckInv(g, s) ==> StuckInv(g, t)
  {
  }

  lemma HeldCommit(g: Geometry, s: State, t: State)
    requires (s.pc.CopyLog? || s.pc.Install? || s.pc.CommitDone?) && Committing(g, s)
    requires t == s.(held := t.held) && Sane(g, t)
    requires Current(t) == Current(s) && Durable(t) == Durable(s) && Vals(g, t) == Vals(g, s)
    ensures CommitInv(g, t)
  {
  }

  lemma BufferKeeps(g: Geometry, s: State, e: Event)
    requires Inv(g, s) && (e == Hold || e == Drop) && Enabled(g, s, e) && Next(g, s, e).Ok?
    ensures Inv(g, Next(g, s, e).s)
  {
    var t := Next(g, s, e).s;
    HeldFrame(g, s, t);
    if !s.pc.Running? && Fits(g, s) {
      HeldCommit(g, s, t);
    }
  }

  /** The panics: log_write on a full log, and bread without a buffer left, be it an
      operation's or reader's or that of a commit or recovery. */
  predicate Panics(g: Geometry, s: State, e: Event)
  {
    match e
    case Check(_) => LogFull(g, s)
    case Hold => NoBuffer(g, s, 1)
    case DiskWrite => NoBuffer(g, s, Needed(s))
    case _ => false
  }

  lemma OnlyPanics(g: Geometry, s: State, e: Event)
    requires Inv(g, s) && Enabled(g, s, e)
    ensures Next(g, s, e).Panic? <==> Panics(g, s, e)
  {
    assert e.End? || e.Check? ==> s.pc.Running? && s.outstanding >= 1;
  }

  /** Every step of every interleaving keeps the invariant, if the log does not outgrow its
      region, and it panics in these cases only. */
  lemma StepKeeps(g: Geometry, s: State, e: Event)
    requires Inv(g, s) && Enabled(g, s, e)
    ensures Next(g, s, e).Panic? <==> Panics(g, s, e)
    ensures Next(g, s, e).Ok? && Sane(g, Next(g, s, e).s) ==> Inv(g, Next(g, s, e).s)
    ensures Next(g, s, e).Ok? && Roomy(g) ==> Sane(g, Next(g, s, e).s)
  {
    OnlyPanics(g, s, e);
    if e.Append? {
      AppendStep(g, s, e.i, e.b, e.data);
    } else if Next(g, s, e).Ok? {
      OtherStep(g, s, e);
    }
  }

  lemma OtherStep(g: Geometry, s: State, e: Event)
    requires Inv(g, s) && Enabled(g, s, e) && !e.Append? && Next(g, s, e).Ok?
    ensures Inv(g, Next(g, s, e).s)
  {
    if e.DiskWrite? || e.Finish? || e.Crash? {
      CommitterStep(g, s, e);
    } else {
      UserStep(g, s, e);
    }
  }

  lemma UserStep(g: Geometry, s: State, e: Event)
    requires Inv(g, s) && Enabled(g, s, e) && Next(g, s, e).Ok?
    requires e.Hold? || e.Drop? || e.Begin? || e.Check? || e.End?
    ensures Inv(g, Next(g, s, e).s)
  {
    match e
    case Hold => BufferKeeps(g, s, e);
    case Drop => BufferKeeps(g, s, e);
    case Begin(id) => BeginKeeps(g, s, id);
    case Check(i) => CheckKeeps(g, s, i);
    case End(i) => EndKeeps(g, s, i);
  }

  lemma CommitterStep(g: Geometry, s: State, e: Event)
    requires Inv(g, s) && Enabled(g, s, e) && Next(g, s, e).Ok?
    requires e.DiskWrite? || e.Finish? || e.Crash?
    ensures Inv(g, Next(g, s, e).s)
  {
    match e
    case DiskWrite => WriteKeeps(g, s);
    case Finish => FinishKeeps(g, s);
    case Crash => CrashKeeps(g, s);
  }

  lemma WriteKeeps(g: Geometry, s: State)
    requires Inv(g, s) && Enabled(g, s, DiskWrite) && Fits(g, s)
    ensures Inv(g, Wrote(g, s))
  {
    if s.pc.Recover? {
      RecoverWriteKeeps(g, s);
    } else {
      CommitWriteKeeps(g, s);
    }
  }

  /** A region on which the log either fits or, with all buffers dirty, cannot be
      committed. */
  predicate Roomy(g: Geometry)
  {
    g.size > LOGSIZE || g.nbuf <= g.size
  }

  lemma AppendStep(g: Geometry, s: State, i: nat, b: int, data: Block)
    requires Inv(g, s) && Enabled(g, s, Append(i, b, data))
    ensures Next(g, s, Append(i, b, data)).Ok?
    ensures var t := Next(g, s, Append(i, b, data)).s;
            (Sane(g, t) ==> Inv(g, t)) && (Roomy(g) ==> Sane(g, t))
  {
    var n := |Absorb(s.blocks, b)|;
    ReservedAppend(s, Next(g, s, Append(i, b, data)).s, i, b);
    if n < g.size || n >= g.nbuf {
      AppendKeeps(g, s, i, b, data);
    }
  }

  // ---------------------------------------------------------- whole runs

  datatype RunResult = Reached(s: State) | Panicked | NotARun

  /** The run es from s.  A run stops counting when the log has outgrown its region and
      could be committed all the same, or when an event breaks the callers' rules. */
  function Run(g: Geometry, s: State, es: seq<Event>): RunResult
    decreases |es|
  {
    if es == [] then Reached(s)
    else if !Sane(g, s) || !Enabled(g, s, es[0]) then NotARun
    else match Next(g, s, es[0])
      case Panic => Panicked
      case Ok(t) => Run(g, t, es[1..])
  }

  lemma {:induction false} RunKeeps(g: Geometry, s: State, es: seq<Event>)
    requires Inv(g, s)
    ensures var r := Run(g, s, es);
            r.Reached? ==> r.s.origin == s.origin && (Roomy(g) ==> Sane(g, r.s)) && (Sane(g, r.s) ==> Inv(g, r.s))
    decreases |es|
  {
    if es != [] && Enabled(g, s, es[0]) && Next(g, s, es[0]).Ok? {
      StepKeeps(g, s, es[0]);
      SameOrigin(g, s, es[0]);
      var t := Next(g, s, es[0]).s;
      if Sane(g, t) {
        RunKeeps(g, t, es[1..]);
      }
    }
  }

  lemma SameOrigin(g: Geometry, s: State, e: Event)
    requires Sane(g, s) && Enabled(g, s, e) && Next(g, s, e).Ok?
    ensures Next(g, s, e).s.origin == s.origin
  {
  }

  lemma InitInv(g: Geometry, d: Disk)
    requires GoodStart(g, d)
    ensures Inv(g, Init(d))
  {
    assert Writes([]) == [];
    assert Perform(d, []) == d;
  }

  /** The main theorem.  Whatever is interleaved and wherever it crashes or panics, as long
      as the log has not outgrown its region: the disk recovers to the initial file system
      with exactly the updates before the commit point applied; those updates belong to
      operations that have ended, and no operation is split by the commit point; a commit
      runs only when no operation is outstanding; the logged blocks are distinct and, with
      the reservations, within LOGSIZE; the pinned buffers are within the cache.  On a
      region of more than LOGSIZE blocks, or of at least as many as there are buffers (the
      region of mkfs and the cache of param.h), the proviso always holds. */
  lemma GroupCommitSafe(g: Geometry, d: Disk, es: seq<Event>)
    requires GoodStart(g, d)
    ensures Roomy(g) && Run(g, Init(d), es).Reached? ==> Sane(g, Run(g, Init(d), es).s)
    ensures var r := Run(g, Init(d), es);
            r.Reached? && Sane(g, r.s) ==>
              var s := r.s;
              && s.cp <= |s.history|
              && Home(g, Recovered(g, s.disk)) == Home(g, Perform(d, Writes(s.history[..s.cp])))
              && (forall i | 0 <= i < s.cp :: s.history[i].op in s.ended)
              && (forall i, j | 0 <= i < s.cp <= j < |s.history| :: s.history[i].op != s.history[j].op)
              && (s.pc.CopyLog? || s.pc.Install? || s.pc.CommitDone? ==> s.outstanding == 0)
              && (s.pc.Running? && s.outstanding == 0 ==> s.cp == |s.history|)
              && (!s.pc.Recover? ==> Distinct(s.blocks))
              && |s.blocks| + Unspent(s.ops, MAXOPBLOCKS) <= LOGSIZE
              && |s.pinned| + s.held <= g.nbuf
              && (forall b | s.pc.Running? && IsHome(g, b) :: Bread(s, b) == Perform(d, Writes(s.history))[b])
  {
    InitInv(g, d);
    RunKeeps(g, Init(d), es);
    var r := Run(g, Init(d), es);
    if r.Reached? && Sane(g, r.s) {
      var s := r.s;
      CrashSafe(g, s);
      DirtyCount(g, s);
      forall b | s.pc.Running? && IsHome(g, b)
        ensures Bread(s, b) == Perform(d, Writes(s.history))[b]
      {
        ReadsCurrent(g, s, b);
      }
    }
  }
}
