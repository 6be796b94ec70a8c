/** What a timer tick, a wakeup and a kill do to each process and each queue, and how long a
    process runs before it is demoted. */
module MlfqTicks {
  import opened Common
  import opened Procs
  import opened Mlfq
  import opened MlfqInv
  import opened MlfqRuns

  // ---------------------------------------------------------- the accounts

  function One(b: bool): int
  {
    if b then 1 else 0
  }

  /** y is x one tick later: a process that is neither killed nor free gains one in the account
      of the state it is in, and a running one also in its slice and at its level. */
  predicate Accounted(x: Proc, y: Proc)
  {
    var live := !x.killed && x.pid != 0;
    && y == x.(run := y.run, slice := y.slice, levelTicks := y.levelTicks, sleep := y.sleep, wait := y.wait)
    && y.run - x.run == y.slice - x.slice == One(live && x.state == RUNNING)
    && y.sleep - x.sleep == One(live && x.state == SLEEPING)
    && y.wait - x.wait == One(live && x.state == RUNNABLE)
    && |y.levelTicks| == |x.levelTicks|
    && forall l | 0 <= l < |x.levelTicks| ::
         y.levelTicks[l] - x.levelTicks[l] == One(live && x.state == RUNNING && l == x.level)
  }

  lemma AccountIs(x: Proc)
    ensures Accounted(x, Account(x))
  {
  }

  // -------------------------------------------------------------- wakeups

  predicate SleepsOn(x: Proc, chan: int)
  {
    x.state == SLEEPING && x.chan == chan
  }

  predicate SleepsFor(x: Proc, chan: int, q: int)
  {
    SleepsOn(x, chan) && x.level == q
  }

  /** The slots from i on that sleep on chan at level q, in table order. */
  function Sleepers(procs: seq<Proc>, chan: int, q: int, i: nat): seq<int>
    requires i <= |procs|
    decreases |procs| - i
  {
    if i == |procs| then []
    else (if SleepsFor(procs[i], chan, q) then [i] else []) + Sleepers(procs, chan, q, i + 1)
  }

  predicate WokenProc(x: Proc, y: Proc, wakes: bool)
  {
    if wakes then y == x.(state := RUNNABLE, slice := 0) else y == x
  }

  predicate Sized(s: State)
  {
    |s.procs| == NPROC && |s.queues| == LEVELS
  }

  /** s with the process in slot i RUNNABLE at the back of its queue. */
  function Roused(s: State, i: int): (t: State)
    requires Sized(s) && 0 <= i < NPROC && 0 <= s.procs[i].level < LEVELS
    ensures Sized(t)
  {
    var x := s.procs[i].(state := RUNNABLE, slice := 0);
    s.(queues := s.queues[x.level := s.queues[x.level] + [i]], procs := s.procs[i := x])
  }

  function RousedFrom(s: State, chan: int, i: nat): (t: State)
    requires Sized(s) && LevelsOk(s) && i <= NPROC
    ensures Sized(t)
    decreases NPROC - i
  {
    if i == NPROC then s
    else if SleepsOn(s.procs[i], chan) then RousedFrom(Roused(s, i), chan, i + 1)
    else RousedFrom(s, chan, i + 1)
  }

  lemma {:induction false} WakeRouses(s: State, chan: int, i: nat, n: int)
    requires InvFrom(s, n) && i <= NPROC
    ensures LevelsOk(s) && WakeFrom(s, chan, i) == RousedFrom(s, chan, i)
    decreases NPROC - i
  {
    LevelsHold(s, n);
    if i < NPROC {
      if SleepsOn(s.procs[i], chan) {
        WokenIs(s, i, n);
        WakeRouses(Woken(s, i), chan, i + 1, n);
      } else {
        WakeRouses(s, chan, i + 1, n);
      }
    }
  }

  /** t is s with the sleepers on chan from slot i on woken, as process p and queue q see it. */
  predicate Wakes(s: State, t: State, chan: int, i: nat, p: int, q: int)
    requires Sized(s) && Sized(t) && i <= NPROC && 0 <= p < NPROC && 0 <= q < LEVELS
  {
    && WokenProc(s.procs[p], t.procs[p], i <= p && SleepsOn(s.procs[p], chan))
    && t.queues[q] == s.queues[q] + Sleepers(s.procs, chan, q, i)
    && t.ticks == s.ticks && t.nextpid == s.nextpid
  }

  lemma WakesStep(s: State, t: State, chan: int, i: nat, p: int, q: int)
    requires Sized(s) && Sized(t) && i < NPROC && 0 <= p < NPROC && 0 <= q < LEVELS
    requires SleepsOn(s.procs[i], chan) && 0 <= s.procs[i].level < LEVELS
    requires Wakes(Roused(s, i), t, chan, i + 1, p, q)
    ensures Wakes(s, t, chan, i, p, q)
  {
    SleepersFrame(s.procs, Roused(s, i).procs, chan, q, i + 1);
  }

  lemma {:induction false} RousesExactly(s: State, chan: int, i: nat, p: int, q: int)
    requires Sized(s) && LevelsOk(s) && i <= NPROC && 0 <= p < NPROC && 0 <= q < LEVELS
    ensures Wakes(s, RousedFrom(s, chan, i), chan, i, p, q)
    decreases NPROC - i
  {
    if i < NPROC {
      if SleepsOn(s.procs[i], chan) {
        RousesExactly(Roused(s, i), chan, i + 1, p, q);
        WakesStep(s, RousedFrom(s, chan, i), chan, i, p, q);
      } else {
        RousesExactly(s, chan, i + 1, p, q);
      }
    }
  }

  /** A wakeup makes RUNNABLE exactly the processes that sleep on the channel, with a fresh
      slice, and puts them behind the others of their level in table order. */
  lemma WakesExactly(s: State, chan: int, n: int, p: int, q: int)
    requires InvFrom(s, n) && 0 <= p < NPROC && 0 <= q < LEVELS
    ensures LevelsOk(s) && Wakes(s, WakeFrom(s, chan, 0), chan, 0, p, q)
  {
    WakeRouses(s, chan, 0, n);
    RousesExactly(s, chan, 0, p, q);
  }

  lemma {:induction false} SleepersFrame(x: seq<Proc>, y: seq<Proc>, chan: int, q: int, i: nat)
    requires |x| == |y| && i <= |x|
    requires forall j | i <= j < |x| :: SleepsFor(x[j], chan, q) == SleepsFor(y[j], chan, q)
    ensures Sleepers(x, chan, q, i) == Sleepers(y, chan, q, i)
    decreases |x| - i
  {
    if i < |x| {
      SleepersFrame(x, y, chan, q, i + 1);
    }
  }

  // ------------------------------------------------------- quantum checks

  /** The level a process at this one is demoted to. */
  function Below(level: int): int
  {
    Min(level + 1, 4)
  }

  predicate Late(x: Proc)
  {
    x.state == RUNNING && 0 <= x.level < LEVELS && x.slice > Limit(x.level)
  }

  predicate LateFor(x: Proc, q: int)
  {
    Late(x) && Below(x.level) == q
  }

  /** The slots from i on that are past their quantum and belong to level q next. */
  function LateOnes(procs: seq<Proc>, q: int, i: nat): seq<int>
    requires i <= |procs|
    decreases |procs| - i
  {
    if i == |procs| then []
    else (if LateFor(procs[i], q) then [i] else []) + LateOnes(procs, q, i + 1)
  }

  predicate CheckedProc(x: Proc, y: Proc, late: bool)
  {
    if late then y == x.(state := RUNNABLE, slice := 0, wait := 0, level := Below(x.level)) else y == x
  }

  predicate Demotes(s: State, c: State, i: int)
    requires Sized(s) && 0 <= i < NPROC && Late(s.procs[i])
  {
    var x := s.procs[i];
    var l := Below(x.level);
    c == s.(procs := s.procs[i := x.(state := RUNNABLE, slice := 0, wait := 0, level := l)],
            queues := s.queues[l := s.queues[l] + [i]])
  }

  /** The timer check puts a process past its quantum one level down, the last level staying,
      at the back of that queue. */
  lemma ChecksOne(s: State, i: int)
    requires InvFrom(s, i) && 0 <= i < NPROC
    ensures LevelsOk(s) && InvFrom(Check(s, i), i + 1)
    ensures if Late(s.procs[i]) then Demotes(s, Check(s, i), i) else Check(s, i) == s
  {
    CheckKeeps(s, i);
    assert ProcOk(s.procs[i], s.ticks) || Overdue(s.procs[i], s.ticks);
  }

  /** t is s with the late processes from slot i on demoted, as process p and queue q see it. */
  predicate Checks(s: State, t: State, i: nat, p: int, q: int)
    requires Sized(s) && Sized(t) && i <= NPROC && 0 <= p < NPROC && 0 <= q < LEVELS
  {
    && CheckedProc(s.procs[p], t.procs[p], i <= p && Late(s.procs[p]))
    && t.queues[q] == s.queues[q] + LateOnes(s.procs, q, i)
    && t.ticks == s.ticks && t.nextpid == s.nextpid
  }

  lemma ChecksStep(s: State, c: State, t: State, i: nat, p: int, q: int)
    requires Sized(s) && Sized(t) && i < NPROC && 0 <= p < NPROC && 0 <= q < LEVELS
    requires Late(s.procs[i]) && Demotes(s, c, i)
    requires Checks(c, t, i + 1, p, q)
    ensures Checks(s, t, i, p, q)
  {
    LateFrame(s.procs, c.procs, q, i + 1);
  }

  lemma ChecksNone(s: State, t: State, i: nat, p: int, q: int)
    requires Sized(s) && Sized(t) && i < NPROC && 0 <= p < NPROC && 0 <= q < LEVELS
    requires !Late(s.procs[i]) && Checks(s, t, i + 1, p, q)
    ensures Checks(s, t, i, p, q)
  {
  }

  lemma {:induction false} ChecksExactly(s: State, i: nat, p: int, q: int)
    requires InvFrom(s, i) && i <= NPROC && 0 <= p < NPROC && 0 <= q < LEVELS
    ensures LevelsOk(s) && Checks(s, CheckFrom(s, i), i, p, q)
    decreases NPROC - i
  {
    LevelsHold(s, i);
    if i == NPROC {
      return;
    }
    ChecksOne(s, i);
    var c := Check(s, i);
    ChecksExactly(c, i + 1, p, q);
    var t := CheckFrom(c, i + 1);
    assert CheckFrom(s, i) == t;
    if Late(s.procs[i]) {
      ChecksStep(s, c, t, i, p, q);
    } else {
      ChecksNone(s, t, i, p, q);
    }
  }

  lemma {:induction false} LateFrame(x: seq<Proc>, y: seq<Proc>, q: int, i: nat)
    requires |x| == |y| && i <= |x|
    requires forall j | i <= j < |x| :: LateFor(x[j], q) == LateFor(y[j], q)
    ensures LateOnes(x, q, i) == LateOnes(y, q, i)
    decreases |x| - i
  {
    if i < |x| {
      LateFrame(x, y, q, i + 1);
    }
  }

  // ------------------------------------------------------------- one tick

  /** This tick is the first past the quantum of x. */
  predicate Spent(x: Proc)
  {
    x.state == RUNNING && !x.killed && 0 <= x.level < LEVELS && x.slice == Limit(x.level)
  }

  predicate SpentFor(x: Proc, q: int)
  {
    Spent(x) && Below(x.level) == q
  }

  /** The slots from i on whose process has spent its quantum and belongs to level q next. */
  function SpentOnes(procs: seq<Proc>, q: int, i: nat): seq<int>
    requires i <= |procs|
    decreases |procs| - i
  {
    if i == |procs| then []
    else (if SpentFor(procs[i], q) then [i] else []) + SpentOnes(procs, q, i + 1)
  }

  lemma {:induction false} LateAreSpent(x: seq<Proc>, y: seq<Proc>, q: int, i: nat)
    requires |x| == |y| && i <= |x|
    requires forall j | i <= j < |x| :: LateFor(y[j], q) == SpentFor(x[j], q)
    ensures LateOnes(y, q, i) == SpentOnes(x, q, i)
    decreases |x| - i
  {
    if i < |x| {
      LateAreSpent(x, y, q, i + 1);
    }
  }

  /** What one timer interrupt makes of a process: it is charged for the tick; one that has
      spent its quantum goes one level down with a fresh slice, one that sleeps on the clock
      becomes RUNNABLE. */
  predicate Ticked(x: Proc, y: Proc)
  {
    if Spent(x) then
      && Accounted(x, y.(state := x.state, slice := x.slice + 1, wait := x.wait, level := x.level))
      && y.state == RUNNABLE && y.slice == 0 && y.wait == 0 && y.level == Below(x.level)
    else if SleepsOn(x, TICKS_CHAN) then
      && Accounted(x, y.(state := SLEEPING, slice := x.slice))
      && y.state == RUNNABLE && y.slice == 0
    else Accounted(x, y)
  }

  lemma TickedProc(x: Proc, a: Proc, w: Proc, y: Proc, now: int)
    requires ProcOk(x, now) && (x.state != UNUSED ==> x.pid > 0) && a == Account(x)
    requires WokenProc(a, w, SleepsOn(a, TICKS_CHAN)) && CheckedProc(w, y, Late(w))
    ensures Ticked(x, y) && Late(w) == Spent(x)
    ensures SleepsOn(a, TICKS_CHAN) == SleepsOn(x, TICKS_CHAN) && a.level == w.level == x.level
  {
    AccountIs(x);
  }

  /** The timer interrupt, process by process and queue by queue: the clock's sleepers and then
      the demoted processes join the back of their queues, each in table order. */
  lemma TickEffect(s: State, p: int, q: int)
    requires Inv(s) && 0 <= p < NPROC && 0 <= q < LEVELS
    ensures LevelsOk(s) && Ticked(s.procs[p], Tick(s).procs[p]) && Tick(s).ticks == s.ticks + 1
    ensures Tick(s).queues[q] == s.queues[q] + Sleepers(s.procs, TICKS_CHAN, q, 0) + SpentOnes(s.procs, q, 0)
  {
    LevelsHold(s, NPROC);
    AccountAllKeeps(s);
    var a := AccountAll(s);
    WakeKeeps(a, TICKS_CHAN, 0, 0);
    var w := WakeFrom(a, TICKS_CHAN, 0);
    WakesExactly(a, TICKS_CHAN, 0, p, q);
    ChecksExactly(w, 0, p, q);
    TickQueue(s, a, w, CheckFrom(w, 0), p, q);
  }

  lemma TickQueue(s: State, a: State, w: State, t: State, p: int, q: int)
    requires Inv(s) && Sized(t) && a == AccountAll(s) && LevelsOk(a) && 0 <= p < NPROC && 0 <= q < LEVELS
    requires InvFrom(a, 0) && w == WakeFrom(a, TICKS_CHAN, 0)
    requires Wakes(a, w, TICKS_CHAN, 0, p, q) && Checks(w, t, 0, p, q)
    ensures Ticked(s.procs[p], t.procs[p])
    ensures t.queues[q] == s.queues[q] + Sleepers(s.procs, TICKS_CHAN, q, 0) + SpentOnes(s.procs, q, 0)
  {
    TickedProc(s.procs[p], a.procs[p], w.procs[p], t.procs[p], s.ticks);
    forall j | 0 <= j < NPROC
      ensures Late(w.procs[j]) == Spent(s.procs[j]) && w.procs[j].level == s.procs[j].level
      ensures SleepsOn(s.procs[j], TICKS_CHAN) == SleepsOn(a.procs[j], TICKS_CHAN)
      ensures a.procs[j].level == s.procs[j].level
    {
      WakesExactly(a, TICKS_CHAN, 0, j, q);
      var y := if Late(w.procs[j])
               then w.procs[j].(state := RUNNABLE, slice := 0, wait := 0, level := Below(w.procs[j].level))
               else w.procs[j];
      TickedProc(s.procs[j], a.procs[j], w.procs[j], y, s.ticks);
    }
    SleepersFrame(s.procs, a.procs, TICKS_CHAN, q, 0);
    LateAreSpent(s.procs, w.procs, q, 0);
  }

  // ------------------------------------------------------------ the quantum

  function Ticks(es: seq<Event>, a: nat, b: nat): nat
    requires a <= b <= |es|
    decreases b - a
  {
    if a == b then 0 else Ticks(es, a, b - 1) + One(es[b - 1] == TimerTick)
  }

  predicate Runs(s: State, p: int)
    requires 0 <= p < NPROC
  {
    |s.procs| == NPROC && s.procs[p].state == RUNNING && !s.procs[p].killed
  }

  /** p runs, and has not been killed, in all states from a to b. */
  ghost predicate RunsThrough(ss: seq<State>, p: int, a: nat, b: nat)
    requires a <= b < |ss| && 0 <= p < NPROC
  {
    forall c | a <= c <= b :: Runs(ss[c], p)
  }

  lemma ScheduleSpares(s: State, p: int)
    requires Inv(s) && 0 <= p < NPROC && Runs(s, p)
    ensures Dispatch(s).procs[p] == s.procs[p]
  {
    AgeAllKeeps(s);
    AgeAllFrame(s);
    PickKeeps(AgeAll(s));
  }

  lemma WakeupSpares(s: State, chan: int, p: int)
    requires Inv(s) && LevelsOk(s) && 0 <= p < NPROC && Runs(s, p)
    ensures WakeFrom(s, chan, 0).procs[p] == s.procs[p]
  {
    WakesExactly(s, chan, NPROC, p, 0);
  }

  /** What one event does to a process that goes on running: only the clock touches it. */
  predicate Stepped(x: Proc, y: Proc, e: Event)
  {
    if e == TimerTick then Accounted(x, y) && x.pid > 0 else y == x
  }

  lemma StillRunning(s: State, e: Event, p: int)
    requires Inv(s) && LevelsOk(s) && Enabled(s, e) && 0 <= p < NPROC && Runs(s, p) && Runs(Next(s, e), p)
    ensures Stepped(s.procs[p], Next(s, e).procs[p], e)
  {
    match e
    case Schedule => ScheduleSpares(s, p);
    case Wakeup(chan) => WakeupSpares(s, chan, p);
    case TimerTick => TickEffect(s, p, 0);
    case _ =>
  }

  /** What the clock has charged to a process that has run for n ticks. */
  predicate Charged(x: Proc, y: Proc, n: nat)
  {
    && y.level == x.level && |y.levelTicks| == |x.levelTicks| == LEVELS && 0 <= x.level < LEVELS
    && y.slice == x.slice + n && y.run == x.run + n && y.sleep == x.sleep
    && y.levelTicks[x.level] == x.levelTicks[x.level] + n
  }

  lemma ChargedStep(x: Proc, y: Proc, z: Proc, n: nat, e: Event)
    requires Charged(x, y, n) && Stepped(y, z, e) && y.state == RUNNING && !y.killed
    ensures Charged(x, z, n + One(e == TimerTick))
  {
  }

  lemma RunningStep(ss: seq<State>, es: seq<Event>, p: int, b: nat)
    requires IsRun(ss, es) && Boot(ss[0]) && b < |es| && 0 <= p < NPROC && Runs(ss[b], p) && Runs(ss[b + 1], p)
    ensures Stepped(ss[b].procs[p], ss[b + 1].procs[p], es[b])
  {
    RunKeeps(ss, es, b);
    StillRunning(ss[b], es[b], p);
  }

  lemma RunningBounds(ss: seq<State>, es: seq<Event>, p: int, b: nat)
    requires IsRun(ss, es) && Boot(ss[0]) && b <= |es| && 0 <= p < NPROC && Runs(ss[b], p)
    ensures var x := ss[b].procs[p];
            0 <= x.level < LEVELS && 0 <= x.slice <= Limit(x.level) && |x.levelTicks| == LEVELS
  {
    RunKeeps(ss, es, b);
    assert ProcOk(ss[b].procs[p], ss[b].ticks);
  }

  ghost predicate StepsOf(ss: seq<State>, es: seq<Event>, p: int, a: nat, b: nat)
    requires |ss| == |es| + 1 && a <= b <= |es| && 0 <= p < NPROC && RunsThrough(ss, p, a, b)
  {
    forall c | a <= c < b :: StepAt(ss, es, p, c)
  }

  ghost predicate StepAt(ss: seq<State>, es: seq<Event>, p: int, c: nat)
    requires |ss| == |es| + 1 && c < |es| && 0 <= p < NPROC
  {
    Runs(ss[c], p) && Runs(ss[c + 1], p) && Stepped(ss[c].procs[p], ss[c + 1].procs[p], es[c])
  }

  lemma {:induction false} RunsCharged(ss: seq<State>, es: seq<Event>, p: int, a: nat, b: nat)
    requires |ss| == |es| + 1 && a <= b <= |es| && 0 <= p < NPROC && RunsThrough(ss, p, a, b)
    requires StepsOf(ss, es, p, a, b)
    requires Runs(ss[a], p) && Charged(ss[a].procs[p], ss[a].procs[p], 0)
    ensures Runs(ss[b], p) && Charged(ss[a].procs[p], ss[b].procs[p], Ticks(es, a, b))
    decreases b - a
  {
    if a < b {
      RunsCharged(ss, es, p, a, b - 1);
      assert StepAt(ss, es, p, b - 1);
      ChargedStep(ss[a].procs[p], ss[b - 1].procs[p], ss[b].procs[p], Ticks(es, a, b - 1), es[b - 1]);
    }
  }

  lemma RunsStep(ss: seq<State>, es: seq<Event>, p: int, a: nat, b: nat)
    requires IsRun(ss, es) && Boot(ss[0]) && a <= b <= |es| && 0 <= p < NPROC && RunsThrough(ss, p, a, b)
    ensures StepsOf(ss, es, p, a, b)
  {
    forall c | a <= c < b ensures StepAt(ss, es, p, c) {
      assert Runs(ss[c], p) && Runs(ss[c + 1], p);
      RunningStep(ss, es, p, c);
    }
  }

  /** A process that runs on is charged for every tick, in its slice, its run time and at its
      level, and cannot outlast the quantum of that level. */
  lemma RunsWithinQuantum(ss: seq<State>, es: seq<Event>, p: int, a: nat, b: nat)
    requires IsRun(ss, es) && Boot(ss[0]) && a <= b <= |es| && 0 <= p < NPROC && RunsThrough(ss, p, a, b)
    ensures |ss[a].procs| == |ss[b].procs| == NPROC
    ensures var x, y := ss[a].procs[p], ss[b].procs[p];
            && Charged(x, y, Ticks(es, a, b)) && 0 <= x.slice
            && Ticks(es, a, b) <= Limit(x.level) - x.slice
  {
    assert Runs(ss[a], p) && Runs(ss[b], p);
    RunningBounds(ss, es, p, a);
    RunningBounds(ss, es, p, b);
    RunsStep(ss, es, p, a, b);
    RunsCharged(ss, es, p, a, b);
  }

  /** The tick after the last one of the quantum demotes: the process goes to the queue one
      level down, or stays on the last one, with a fresh slice. */
  lemma DemotedOnTime(ss: seq<State>, es: seq<Event>, p: int, a: nat, b: nat)
    requires IsRun(ss, es) && Boot(ss[0]) && a <= b < |es| && 0 <= p < NPROC && RunsThrough(ss, p, a, b)
    requires |ss[a].procs| == NPROC && 0 <= ss[a].procs[p].level < LEVELS && es[b] == TimerTick
    requires ss[a].procs[p].slice + Ticks(es, a, b) == Limit(ss[a].procs[p].level)
    ensures Shape(ss[b + 1])
    ensures var x, y := ss[a].procs[p], ss[b + 1].procs[p];
            && y.state == RUNNABLE && y.slice == 0 && y.wait == 0 && y.level == Below(x.level)
            && y.run == x.run + Ticks(es, a, b) + 1 && p in ss[b + 1].queues[Below(x.level)]
  {
    RunsWithinQuantum(ss, es, p, a, b);
    RunKeeps(ss, es, b);
    assert Runs(ss[a], p) && Runs(ss[b], p);
    var q := Below(ss[a].procs[p].level);
    TickEffect(ss[b], p, q);
    SpentListed(ss[b].procs, q, 0, p);
  }

  lemma {:induction false} SpentListed(procs: seq<Proc>, q: int, i: nat, p: int)
    requires i <= p < |procs| && SpentFor(procs[p], q)
    ensures p in SpentOnes(procs, q, i)
    decreases |procs| - i
  {
    if i < p {
      SpentListed(procs, q, i + 1, p);
    }
  }

  // ------------------------------------------------ kill, and a whole life

  /** t is s with the process in slot p marked as killed and, if it slept, RUNNABLE at the back
      of the queue of its level. */
  predicate KillsAt(s: State, t: State, p: int)
    requires Sized(s) && 0 <= p < NPROC
  {
    var x := s.procs[p].(killed := true);
    if x.state == SLEEPING then
      && 0 <= x.level < LEVELS
      && t == s.(procs := s.procs[p := x.(state := RUNNABLE)], queues := s.queues[x.level := s.queues[x.level] + [p]])
    else t == s.(procs := s.procs[p := x])
  }

  /** kill: the first process with the pid is marked, and a sleeper is made RUNNABLE at the
      back of the queue of its level; without such a process nothing changes. */
  lemma KillEffect(s: State, pid: int, p: int)
    requires Inv(s) && 0 <= p <= NPROC && forall i | 0 <= i < p :: s.procs[i].pid != pid
    requires p < NPROC ==> s.procs[p].pid == pid
    ensures LevelsOk(s) && SlotOf(s.procs, pid, 0) == p
    ensures if p < NPROC then KillsAt(s, Kill(s, pid), p) else Kill(s, pid) == s
  {
    LevelsHold(s, NPROC);
    SlotIs(s.procs, pid, 0, p);
    if p < NPROC && s.procs[p].state == SLEEPING {
      var x := s.procs[p].(killed := true);
      var k := s.(procs := s.procs[p := x]);
      assert ProcOk(s.procs[p], s.ticks);
      FlagKeeps(s, p);
      PushIs(k, p, x, x.level, NPROC);
      assert k.procs[p := x] == k.procs;
    }
  }

  lemma {:induction false} SlotIs(procs: seq<Proc>, pid: int, i: nat, p: int)
    requires i <= p <= |procs| && (forall j | i <= j < p :: procs[j].pid != pid)
    requires p < |procs| ==> procs[p].pid == pid
    ensures SlotOf(procs, pid, i) == p
    decreases |procs| - i
  {
    if i < p {
      SlotIs(procs, pid, i + 1, p);
    }
  }

  /** A process starts RUNNABLE at the back of queue 0 with all its accounts at zero. */
  lemma StartsFresh(s: State, p: int)
    requires Inv(s) && Enabled(s, Start(p))
    ensures LevelsOk(s)
    ensures var t := Next(s, Start(p)); var y := t.procs[p];
            && y.state == RUNNABLE && y.pid == s.procs[p].pid && y.level == 0
            && y.wait == 0 && y.slice == 0 && y.run == 0 && y.sleep == 0 && y.levelTicks == [0, 0, 0, 0, 0]
            && t == s.(procs := s.procs[p := y], queues := s.queues[0 := s.queues[0] + [p]])
  {
    LevelsHold(s, NPROC);
    assert ProcOk(s.procs[p], s.ticks);
    EnqueueKeeps(s, p, s.procs[p].(state := RUNNABLE), 0, NPROC);
  }

  /** A process that sleeps and is woken keeps its level and its accounts. */
  lemma SleepAndWake(s: State, p: int, chan: int)
    requires Inv(s) && LevelsOk(s) && Enabled(s, Sleep(p, chan))
    ensures var t := Next(s, Sleep(p, chan));
            && Inv(t) && LevelsOk(t)
            && WakeFrom(t, chan, 0).procs[p] == s.procs[p].(state := RUNNABLE, chan := chan, slice := 0)
  {
    var x := s.procs[p].(state := SLEEPING, chan := chan);
    assert ProcOk(s.procs[p], s.ticks);
    UpdateKeeps(s, p, x);
    Awoken(s.(procs := s.procs[p := x]), p, chan);
  }

  lemma Awoken(s: State, p: int, chan: int)
    requires Inv(s) && 0 <= p < NPROC && SleepsOn(s.procs[p], chan)
    ensures LevelsOk(s) && WakeFrom(s, chan, 0).procs[p] == s.procs[p].(state := RUNNABLE, slice := 0)
  {
    WakesExactly(s, chan, NPROC, p, 0);
  }

  /** A process that exits and is reaped leaves its slot free, and nothing else changes. */
  lemma ExitAndReap(s: State, p: int)
    requires Inv(s) && Enabled(s, Exit(p))
    ensures LevelsOk(s) && Inv(Next(s, Exit(p))) && LevelsOk(Next(s, Exit(p)))
    ensures Enabled(Next(s, Exit(p)), Reap(p)) && Next(s, Exit(p)).procs[p].ended == s.ticks
    ensures var t := Next(Next(s, Exit(p)), Reap(p));
            && t.procs[p].state == UNUSED && t.procs[p].pid == 0 && !t.procs[p].killed
            && t == s.(procs := s.procs[p := t.procs[p]])
  {
    StepKeeps(s, Exit(p));
    LevelsHold(Next(s, Exit(p)), NPROC);
  }
}
