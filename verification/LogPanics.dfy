/** When no run of the group-commit protocol panics: the exact budget of blocks per operation
    and of buffers held, for a log region and a cache of given sizes. */
module LogPanics {
  import opened Common
  import opened LogDisk
  import opened LogProtocol
  import BufferCache

  // --------------------------------------------------------- careful runs

  /** The most blocks one transaction can have if each operation adds at most l: what begin_op
      admits a second operation at, and two operations after that. */
  function Peak(l: int): int
  {
    MAXOPBLOCKS + 2 * l
  }

  /** A log_write is issued by an operation that has added fewer than l blocks, and a clean
      buffer is taken while fewer than h are held. */
  predicate CarefulStep(s: State, e: Event, l: nat, h: nat)
  {
    && (e.Check? && e.i < |s.ops| ==> s.ops[e.i].added < l)
    && (e == Hold ==> s.held < h)
  }

  predicate Careful(g: Geometry, s: State, es: seq<Event>, l: nat, h: nat)
    decreases |es|
  {
    es != [] && Sane(g, s) && Enabled(g, s, es[0]) ==>
      && CarefulStep(s, es[0], l, h)
      && (Next(g, s, es[0]).Ok? ==> Careful(g, Next(g, s, es[0]).s, es[1..], l, h))
  }

  /** What careful runs keep: nobody is above the limits, and the log with all that its
      operations may still add is at most Peak(l). */
  predicate Frugal(s: State, l: nat, h: nat)
  {
    && (forall i | 0 <= i < |s.ops| :: s.ops[i].added <= l && (s.ops[i].checked ==> s.ops[i].added < l))
    && s.held <= h
    && (!s.pc.Recover? ==> |s.blocks| + Unspent(s.ops, l) <= Peak(l))
  }

  /** begin_op admits an operation on an empty log, beside one other on MAXOPBLOCKS blocks, or
      beside two others on none. */
  lemma FrugalBegin(g: Geometry, s: State, id: nat, l: nat, h: nat)
    requires Inv(g, s) && Enabled(g, s, Begin(id)) && Frugal(s, l, h) && 1 <= l <= MAXOPBLOCKS
    ensures Frugal(Next(g, s, Begin(id)).s, l, h)
  {
    var t := Next(g, s, Begin(id)).s;
    if t != s {
      UnspentAppend(s.ops, Op(id, 0, false), l);
      UnspentBounds(s.ops, 0, l);
      assert |s.ops| == 0 || |s.ops| == 1 || |s.ops| == 2;
    }
  }

  lemma FrugalCheck(g: Geometry, s: State, i: nat, l: nat, h: nat)
    requires Inv(g, s) && Enabled(g, s, Check(i)) && Frugal(s, l, h) && s.ops[i].added < l
    requires Next(g, s, Check(i)).Ok?
    ensures Frugal(Next(g, s, Check(i)).s, l, h)
  {
    UnspentUpdate(s.ops, i, s.ops[i].(checked := true), l);
  }

  lemma FrugalAppend(g: Geometry, s: State, i: nat, b: int, data: Block, l: nat, h: nat)
    requires Inv(g, s) && Enabled(g, s, Append(i, b, data)) && Frugal(s, l, h)
    ensures Frugal(Next(g, s, Append(i, b, data)).s, l, h)
  {
    UnspentUpdate(s.ops, i, Charged(s.ops[i], s.blocks, b), l);
  }

  lemma FrugalEnd(g: Geometry, s: State, i: nat, l: nat, h: nat)
    requires Inv(g, s) && Enabled(g, s, End(i)) && Frugal(s, l, h)
    ensures Next(g, s, End(i)).Ok? && Frugal(Next(g, s, End(i)).s, l, h)
  {
    assert s.pc.Running?;
    UnspentWithout(s.ops, i, l);
  }

  lemma FrugalStep(g: Geometry, s: State, e: Event, l: nat, h: nat)
    requires Inv(g, s) && Enabled(g, s, e) && Frugal(s, l, h) && 1 <= l <= MAXOPBLOCKS
    requires CarefulStep(s, e, l, h) && Next(g, s, e).Ok?
    ensures Frugal(Next(g, s, e).s, l, h)
  {
    match e
    case Begin(id) => FrugalBegin(g, s, id, l, h);
    case Check(i) => FrugalCheck(g, s, i, l, h);
    case Append(i, b, data) => FrugalAppend(g, s, i, b, data, l, h);
    case End(i) => FrugalEnd(g, s, i, l, h);
    case _ =>
  }

  /** Within the budget no step panics and the log fits its region. */
  lemma FrugalSafe(g: Geometry, s: State, e: Event, l: nat, h: nat)
    requires Inv(g, s) && Enabled(g, s, e) && Frugal(s, l, h) && l <= MAXOPBLOCKS && CarefulStep(s, e, l, h)
    requires Peak(l) < g.size && Peak(l) + h < g.nbuf
    ensures Next(g, s, e).Ok?
  {
    OnlyPanics(g, s, e);
    UnspentBounds(s.ops, if e.Check? then e.i else 0, l);
  }

  lemma {:induction false} CarefulNoPanic(g: Geometry, s: State, es: seq<Event>, l: nat, h: nat)
    requires Inv(g, s) && Frugal(s, l, h) && Careful(g, s, es, l, h)
    requires 1 <= l <= MAXOPBLOCKS && Peak(l) < g.size && Peak(l) + h < g.nbuf
    ensures var r := Run(g, s, es);
            !r.Panicked? && (r.Reached? ==> Sane(g, r.s) && Fits(g, r.s))
    decreases |es|
  {
    FrugalFits(g, s, l, h);
    if es != [] && Enabled(g, s, es[0]) {
      CarefulNext(g, s, es[0], l, h);
      CarefulNoPanic(g, Next(g, s, es[0]).s, es[1..], l, h);
    }
  }

  lemma FrugalFits(g: Geometry, s: State, l: nat, h: nat)
    requires Sane(g, s) && Frugal(s, l, h) && Peak(l) < g.size
    ensures Fits(g, s)
  {
    UnspentBounds(s.ops, 0, l);
  }

  lemma CarefulNext(g: Geometry, s: State, e: Event, l: nat, h: nat)
    requires Inv(g, s) && Enabled(g, s, e) && Frugal(s, l, h) && CarefulStep(s, e, l, h)
    requires 1 <= l <= MAXOPBLOCKS && Peak(l) < g.size && Peak(l) + h < g.nbuf
    ensures Next(g, s, e).Ok? && Inv(g, Next(g, s, e).s) && Frugal(Next(g, s, e).s, l, h)
  {
    FrugalSafe(g, s, e, l, h);
    FrugalStep(g, s, e, l, h);
    if e.Append? {
      AppendFits(g, s, Next(g, s, e).s, l, h);
      AppendKeeps(g, s, e.i, e.b, e.data);
    } else {
      OtherStep(g, s, e);
    }
  }

  lemma AppendFits(g: Geometry, s: State, t: State, l: nat, h: nat)
    requires Frugal(t, l, h) && t.pc.Running? && Peak(l) < g.size
    ensures |t.blocks| < g.size
  {
    UnspentBounds(t.ops, 0, l);
  }

  // ------------------------------------------------------ runs step by step

  lemma {:induction false} RunAppend(g: Geometry, s: State, es: seq<Event>, fs: seq<Event>)
    requires Run(g, s, es).Reached?
    ensures Run(g, s, es + fs) == Run(g, Run(g, s, es).s, fs)
    decreases |es|
  {
    if es == [] {
      assert es + fs == fs;
    } else {
      assert (es + fs)[1..] == es[1..] + fs;
      RunAppend(g, Next(g, s, es[0]).s, es[1..], fs);
    }
  }

  lemma {:induction false} CarefulAppend(g: Geometry, s: State, es: seq<Event>, fs: seq<Event>, l: nat, h: nat)
    requires Run(g, s, es).Reached? && Careful(g, s, es, l, h) && Careful(g, Run(g, s, es).s, fs, l, h)
    ensures Careful(g, s, es + fs, l, h)
    decreases |es|
  {
    if es == [] {
      assert es + fs == fs;
    } else {
      assert (es + fs)[1..] == es[1..] + fs;
      CarefulAppend(g, Next(g, s, es[0]).s, es[1..], fs, l, h);
    }
  }

  /** The run es from s reaches t, carefully. */
  predicate Leads(g: Geometry, s: State, es: seq<Event>, t: State, l: nat, h: nat)
  {
    Run(g, s, es) == Reached(t) && Careful(g, s, es, l, h)
  }

  lemma RunOne(g: Geometry, s: State, e: Event)
    requires Sane(g, s) && Enabled(g, s, e) && Next(g, s, e).Ok?
    ensures Run(g, s, [e]) == Reached(Next(g, s, e).s)
  {
    assert [e][1..] == [];
    assert Run(g, Next(g, s, e).s, []) == Reached(Next(g, s, e).s);
  }

  lemma LeadsStep(g: Geometry, s: State, es: seq<Event>, t: State, e: Event, l: nat, h: nat)
    requires Leads(g, s, es, t, l, h) && Sane(g, t) && Enabled(g, t, e) && Next(g, t, e).Ok? && CarefulStep(t, e, l, h)
    ensures Leads(g, s, es + [e], Next(g, t, e).s, l, h)
  {
    RunOne(g, t, e);
    assert [e][1..] == [];
    assert Careful(g, Next(g, t, e).s, [], l, h);
    RunAppend(g, s, es, [e]);
    CarefulAppend(g, s, es, [e], l, h);
  }

  lemma PanicsNext(g: Geometry, s: State, es: seq<Event>, t: State, e: Event, l: nat, h: nat)
    requires Leads(g, s, es, t, l, h) && Sane(g, t) && Enabled(g, t, e) && Next(g, t, e).Panic?
             && CarefulStep(t, e, l, h)
    ensures Run(g, s, es + [e]).Panicked? && Careful(g, s, es + [e], l, h)
  {
    RunAppend(g, s, es, [e]);
    CarefulAppend(g, s, es, [e], l, h);
  }

  // ------------------------------------------------------- filling the log

  predicate Homes(g: Geometry, hs: seq<int>)
  {
    |hs| == LOGSIZE && Distinct(hs) && forall i | 0 <= i < |hs| :: IsHome(g, hs[i])
  }

  predicate Logging(g: Geometry, d: Disk, hs: seq<int>, n: nat, s: State)
  {
    n <= |hs| && s.disk == d && s.blocks == hs[..n] && s.pc.Running? && s.cp == 0 && s.held == 0
  }

  /** One operation that has added nothing, while others have logged the first n blocks of hs. */
  predicate Idle(g: Geometry, d: Disk, hs: seq<int>, n: nat, s: State)
  {
    && Logging(g, d, hs, n, s) && s.outstanding == 1 && s.ops == [Op(0, 0, false)]
    && forall x | x in s.used :: x <= n
  }

  /** Of the first n blocks, those that two operations have logged in turn. */
  function Shared(n: nat): nat
  {
    if n < MAXOPBLOCKS then 0 else n - MAXOPBLOCKS
  }

  const SECOND := MAXOPBLOCKS + 1

  predicate Filled(g: Geometry, d: Disk, hs: seq<int>, n: nat, s: State)
  {
    var k := Shared(n);
    && Logging(g, d, hs, n, s) && s.outstanding == 2
    && s.ops == [Op(0, (k + 1) / 2, false), Op(SECOND, k / 2, false)]
  }

  lemma NotYetLogged(hs: seq<int>, n: nat)
    requires Distinct(hs) && n < |hs|
    ensures hs[n] !in hs[..n] && Absorb(hs[..n], hs[n]) == hs[..n + 1]
  {
    var bs := hs[..n];
    assert forall k | 0 <= k < |bs| :: bs[k] != hs[n];
  }

  lemma LoggingSane(g: Geometry, d: Disk, hs: seq<int>, n: nat, s: State)
    requires GoodStart(g, d) && Homes(g, hs) && n < g.size && s.disk == d && s.cp <= |s.history|
    requires n <= |hs| && s.blocks == hs[..n] && (s.pc.Running? || s.pc == CopyLog(0))
    ensures Sane(g, s)
  {
    var bs := hs[..n];
    assert forall k | 0 <= k < |bs| :: IsHome(g, bs[k]);
  }

  /** Operation i takes a buffer and logs block n with it. */
  lemma LogOne(g: Geometry, d: Disk, hs: seq<int>, n: nat, s0: State, es: seq<Event>, s: State, i: nat, l: nat, h: nat)
    returns (es': seq<Event>, t: State)
    requires GoodStart(g, d) && Homes(g, hs) && n < LOGSIZE && n + 1 < g.size && n < g.nbuf && h > 0
    requires Leads(g, s0, es, s, l, h) && Logging(g, d, hs, n, s) && i < |s.ops| && !s.ops[i].checked
    requires s.ops[i].added < l && s.ops[i].added < MAXOPBLOCKS && s.outstanding >= 1
    ensures Leads(g, s0, es', t, l, h) && Logging(g, d, hs, n + 1, t)
    ensures t.outstanding == s.outstanding && t.used == s.used
    ensures t.ops == s.ops[i := Op(s.ops[i].id, s.ops[i].added + 1, false)]
  {
    LoggingSane(g, d, hs, n, s);
    LeadsStep(g, s0, es, s, Hold, l, h);
    var s1 := s.(held := 1);
    LeadsStep(g, s0, es + [Hold], s1, Check(i), l, h);
    var s2 := s1.(ops := s.ops[i := s.ops[i].(checked := true)]);
    NotYetLogged(hs, n);
    var a := Append(i, hs[n], d[0]);
    LeadsStep(g, s0, es + [Hold] + [Check(i)], s2, a, l, h);
    es', t := es + [Hold] + [Check(i)] + [a], Next(g, s2, a).s;
  }

  /** A short operation that logs one block, beside the idle one. */
  lemma ShortOp(g: Geometry, d: Disk, hs: seq<int>, n: nat, s0: State, es: seq<Event>, s: State, l: nat, h: nat)
    returns (es': seq<Event>, t: State)
    requires GoodStart(g, d) && Homes(g, hs) && n < MAXOPBLOCKS && n + 1 < g.size && n < g.nbuf && h > 0 && l > 0
    requires Leads(g, s0, es, s, l, h) && Idle(g, d, hs, n, s)
    ensures Leads(g, s0, es', t, l, h) && Idle(g, d, hs, n + 1, t)
  {
    LoggingSane(g, d, hs, n, s);
    LeadsStep(g, s0, es, s, Begin(n + 1), l, h);
    var s1 := Next(g, s, Begin(n + 1)).s;
    var es2, s2 := LogOne(g, d, hs, n, s0, es + [Begin(n + 1)], s1, 1, l, h);
    LoggingSane(g, d, hs, n + 1, s2);
    LeadsStep(g, s0, es2, s2, End(1), l, h);
    es', t := es2 + [End(1)], Next(g, s2, End(1)).s;
    assert t.ops == [Op(0, 0, false)];
  }

  lemma {:induction false} FillIdle(g: Geometry, d: Disk, hs: seq<int>, n: nat, l: nat, h: nat)
    returns (es: seq<Event>, s: State)
    requires GoodStart(g, d) && Homes(g, hs) && n <= MAXOPBLOCKS && n < g.size && n <= g.nbuf && h > 0 && l > 0
    ensures Leads(g, Init(d), es, s, l, h) && Idle(g, d, hs, n, s)
  {
    if n == 0 {
      LeadsStep(g, Init(d), [], Init(d), Begin(0), l, h);
      es, s := [] + [Begin(0)], Next(g, Init(d), Begin(0)).s;
      assert hs[..0] == [];
    } else {
      es, s := FillIdle(g, d, hs, n - 1, l, h);
      es, s := ShortOp(g, d, hs, n - 1, Init(d), es, s, l, h);
    }
  }

  /** Short operations log MAXOPBLOCKS blocks; then a second long one is admitted, and the two
      add l blocks each. */
  lemma {:induction false} Fill(g: Geometry, d: Disk, hs: seq<int>, n: nat, l: nat, h: nat)
    returns (es: seq<Event>, s: State)
    requires GoodStart(g, d) && Homes(g, hs) && n <= Peak(l) && n <= LOGSIZE && n < g.size && n <= g.nbuf && h > 0
             && l > 0
    ensures Leads(g, Init(d), es, s, l, h) && Filled(g, d, hs, n, s)
  {
    if n <= MAXOPBLOCKS {
      es, s := FillIdle(g, d, hs, n, l, h);
      LoggingSane(g, d, hs, n, s);
      LeadsStep(g, Init(d), es, s, Begin(SECOND), l, h);
      es, s := es + [Begin(SECOND)], Next(g, s, Begin(SECOND)).s;
    } else {
      es, s := Fill(g, d, hs, n - 1, l, h);
      es, s := LogOne(g, d, hs, n - 1, Init(d), es, s, Shared(n - 1) % 2, l, h);
    }
  }

  lemma {:induction false} HoldMany(g: Geometry, s0: State, es: seq<Event>, s: State, k: nat, l: nat, h: nat)
    returns (es': seq<Event>)
    requires Leads(g, s0, es, s, l, h) && Sane(g, s) && s.pc.Running? && s.held == 0
    requires |s.blocks| + k <= g.nbuf && k <= h
    ensures Leads(g, s0, es', s.(held := k), l, h)
  {
    if k == 0 {
      es' := es;
    } else {
      es' := HoldMany(g, s0, es, s, k - 1, l, h);
      LeadsStep(g, s0, es', s.(held := k - 1), Hold, l, h);
      es' := es' + [Hold];
    }
  }

  // --------------------------------------------------- the ways to a panic

  /** On a region of at most Peak(l) blocks (mkfs makes it LOGSIZE) a careful log_write finds
      the log full. */
  lemma SmallLogPanics(g: Geometry, d: Disk, hs: seq<int>, l: nat, h: nat) returns (es: seq<Event>)
    requires GoodStart(g, d) && Homes(g, hs) && 0 < l && 0 < h
    requires g.size <= Peak(l) && g.size <= LOGSIZE && g.size <= g.nbuf + 1
    ensures Run(g, Init(d), es).Panicked? && Careful(g, Init(d), es, l, h)
  {
    var n := g.size - 1;
    var fs, s := Fill(g, d, hs, n, l, h);
    LoggingSane(g, d, hs, n, s);
    var e := Check(Shared(n) % 2);
    PanicsNext(g, Init(d), fs, s, e, l, h);
    es := fs + [e];
  }

  /** The size check precedes the absorption scan.  On a region of any size, an operation that
      has added its MAXOPBLOCKS blocks panics when it writes one of them again, if the log is
      full. */
  lemma FullLogPanics(g: Geometry, d: Disk, hs: seq<int>, l: nat, h: nat) returns (es: seq<Event>)
    requires GoodStart(g, d) && Homes(g, hs) && l > MAXOPBLOCKS && 0 < h && g.size > LOGSIZE && g.nbuf >= LOGSIZE
    ensures Run(g, Init(d), es).Panicked? && Careful(g, Init(d), es, l, h)
  {
    var fs, s := Fill(g, d, hs, LOGSIZE, l, h);
    LoggingSane(g, d, hs, LOGSIZE, s);
    PanicsNext(g, Init(d), fs, s, Check(0), l, h);
    es := fs + [Check(0)];
  }

  /** With Peak(l) blocks logged and h more buffers held, a cache of at most so many buffers
      has none left for the first block that write_log reads. */
  lemma CacheFullPanics(g: Geometry, d: Disk, hs: seq<int>, l: nat, h: nat) returns (es: seq<Event>)
    requires GoodStart(g, d) && Homes(g, hs) && 0 < l <= MAXOPBLOCKS && 0 < h
    requires g.nbuf <= Peak(l) + h && Min(Peak(l), g.nbuf) < g.size
    ensures Run(g, Init(d), es).Panicked? && Careful(g, Init(d), es, l, h)
  {
    var n := Min(Peak(l), g.nbuf);
    var fs, s := Fill(g, d, hs, n, l, h);
    LoggingSane(g, d, hs, n, s);
    if n == 0 {
      PanicsNext(g, Init(d), fs, s, Hold, l, h);
      es := fs + [Hold];
    } else {
      fs := HoldMany(g, Init(d), fs, s, g.nbuf - n, l, h);
      es := CommitPanics(g, d, hs, n, fs, s.(held := g.nbuf - n), l, h);
    }
  }

  /** Both operations end, and the commit panics before any write. */
  lemma CommitPanics(g: Geometry, d: Disk, hs: seq<int>, n: nat, es: seq<Event>, s: State, l: nat, h: nat)
    returns (es': seq<Event>)
    requires GoodStart(g, d) && Homes(g, hs) && 0 < n < g.size && n <= LOGSIZE && n + s.held == g.nbuf
    requires Leads(g, Init(d), es, s, l, h) && Filled(g, d, hs, n, s.(held := 0))
    ensures Run(g, Init(d), es').Panicked? && Careful(g, Init(d), es', l, h)
  {
    LoggingSane(g, d, hs, n, s);
    LeadsStep(g, Init(d), es, s, End(0), l, h);
    var s1 := Next(g, s, End(0)).s;
    LoggingSane(g, d, hs, n, s1);
    assert |s1.ops| == 1;
    LeadsStep(g, Init(d), es + [End(0)], s1, End(0), l, h);
    var s2 := Next(g, s1, End(0)).s;
    LoggingSane(g, d, hs, n, s2);
    PanicsNext(g, Init(d), es + [End(0)] + [End(0)], s2, DiskWrite, l, h);
    es' := es + [End(0)] + [End(0)] + [DiskWrite];
  }

  /** Exactly when no run panics, of those in which log_write is called only by operations that
      have added fewer than l blocks, and never more than h clean buffers are held: an
      operation stops at MAXOPBLOCKS blocks, the region is larger than Peak(l), and the cache
      is larger than Peak(l) and the h buffers together. */
  lemma NoPanicIff(g: Geometry, d: Disk, hs: seq<int>, l: nat, h: nat)
    requires GoodStart(g, d) && Homes(g, hs) && 0 < l && 0 < h
    ensures (forall es :: Careful(g, Init(d), es, l, h) ==> !Run(g, Init(d), es).Panicked?)
            <==> l <= MAXOPBLOCKS && Peak(l) < g.size && Peak(l) + h < g.nbuf
  {
    if l <= MAXOPBLOCKS && Peak(l) < g.size && Peak(l) + h < g.nbuf {
      InitInv(g, d);
      forall es | Careful(g, Init(d), es, l, h) ensures !Run(g, Init(d), es).Panicked? {
        CarefulNoPanic(g, Init(d), es, l, h);
      }
    } else {
      var es := SomePanics(g, d, hs, l, h);
    }
  }

  lemma SomePanics(g: Geometry, d: Disk, hs: seq<int>, l: nat, h: nat) returns (es: seq<Event>)
    requires GoodStart(g, d) && Homes(g, hs) && 0 < l && 0 < h
    requires !(l <= MAXOPBLOCKS && Peak(l) < g.size && Peak(l) + h < g.nbuf)
    ensures Run(g, Init(d), es).Panicked? && Careful(g, Init(d), es, l, h)
  {
    var m := Min(l, MAXOPBLOCKS);
    if g.size <= Min(Peak(m), g.nbuf) {
      es := SmallLogPanics(g, d, hs, l, h);
    } else if g.nbuf <= Peak(m) + h {
      es := CacheFullPanics(g, d, hs, m, h);
      LooserCareful(g, Init(d), es, m, l, h);
    } else {
      es := FullLogPanics(g, d, hs, l, h);
    }
  }

  lemma {:induction false} LooserCareful(g: Geometry, s: State, es: seq<Event>, m: nat, l: nat, h: nat)
    requires Careful(g, s, es, m, h) && m <= l
    ensures Careful(g, s, es, l, h)
    decreases |es|
  {
    if es != [] && Sane(g, s) && Enabled(g, s, es[0]) && Next(g, s, es[0]).Ok? {
      LooserCareful(g, Next(g, s, es[0]).s, es[1..], m, l, h);
    }
  }

  /** The sizes of param.h and mkfs.c: LOGSIZE blocks of log, NBUF == LOGSIZE buffers.  With the
      MAXOPBLOCKS blocks that begin_op reserves some run panics, on a region of any size; what
      is safe is a budget of fewer than 20 for two operations' blocks and the buffers held. */
  lemma NoPanicAsShipped(g: Geometry, d: Disk, hs: seq<int>, l: nat, h: nat)
    requires GoodStart(g, d) && Homes(g, hs) && 0 < l && 0 < h && g.nbuf == BufferCache.NBUF
    ensures exists es :: Careful(g, Init(d), es, MAXOPBLOCKS, h) && Run(g, Init(d), es).Panicked?
    ensures g.size >= LOGSIZE ==>
              ((forall es :: Careful(g, Init(d), es, l, h) ==> !Run(g, Init(d), es).Panicked?) <==> 2 * l + h < 20)
  {
    NoPanicIff(g, d, hs, MAXOPBLOCKS, h);
    NoPanicIff(g, d, hs, l, h);
  }

  // --------------------------------------------------------- past the region

  /** The size check runs before log.lock is taken.  On a small region two log_writes can both
      pass it with one slot left; the log then ends one block past its region. */
  lemma SmallLogOverruns(g: Geometry, d: Disk, hs: seq<int>) returns (es: seq<Event>, s: State)
    requires GoodStart(g, d) && Homes(g, hs) && 2 <= g.size <= LOGSIZE && g.size <= g.nbuf
    ensures Leads(g, Init(d), es, s, MAXOPBLOCKS, 2) && |s.blocks| == g.size && !InLog(g, g.start + |s.blocks|)
  {
    var n := g.size - 2;
    es, s := Fill(g, d, hs, n, MAXOPBLOCKS, 2);
    es, s := TwoPastCheck(g, d, hs, n, es, s);
  }

  lemma TwoPastCheck(g: Geometry, d: Disk, hs: seq<int>, n: nat, es: seq<Event>, s: State)
    returns (es': seq<Event>, t: State)
    requires GoodStart(g, d) && Homes(g, hs) && n + 2 == g.size <= LOGSIZE && n + 2 <= g.nbuf
    requires Leads(g, Init(d), es, s, MAXOPBLOCKS, 2) && Filled(g, d, hs, n, s)
    ensures Leads(g, Init(d), es', t, MAXOPBLOCKS, 2) && |t.blocks| == g.size
  {
    var i, j := Shared(n) % 2, 1 - Shared(n) % 2;
    LoggingSane(g, d, hs, n, s);
    var es0 := HoldMany(g, Init(d), es, s, 2, MAXOPBLOCKS, 2);
    var s0 := s.(held := 2);
    LeadsStep(g, Init(d), es0, s0, Check(i), MAXOPBLOCKS, 2);
    var s1 := Next(g, s0, Check(i)).s;
    LeadsStep(g, Init(d), es0 + [Check(i)], s1, Check(j), MAXOPBLOCKS, 2);
    var s2 := Next(g, s1, Check(j)).s;
    NotYetLogged(hs, n);
    NotYetLogged(hs, n + 1);
    var a := Append(i, hs[n], d[0]);
    LeadsStep(g, Init(d), es0 + [Check(i)] + [Check(j)], s2, a, MAXOPBLOCKS, 2);
    var s3 := Next(g, s2, a).s;
    LoggingSane(g, d, hs, n + 1, s3);
    var b := Append(j, hs[n + 1], d[0]);
    assert s3.ops[j] == s2.ops[j];
    LeadsStep(g, Init(d), es0 + [Check(i)] + [Check(j)] + [a], s3, b, MAXOPBLOCKS, 2);
    es', t := es0 + [Check(i)] + [Check(j)] + [a] + [b], Next(g, s3, b).s;
  }

  /** A log past its region is not committed where there are no more buffers than blocks in the
      region: every step of the commit panics, and no write has been done. */
  lemma OverrunPanics(g: Geometry, s: State)
    requires Inv(g, s) && !Fits(g, s)
    ensures Panics(g, s, Hold) && (Enabled(g, s, DiskWrite) ==> Panics(g, s, DiskWrite))
    ensures Home(g, s.disk) == Home(g, Durable(s)) && s.disk[g.start][0] == 0
  {
  }
}
