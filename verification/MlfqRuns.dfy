/** Whole runs of the MLFQ scheduler, and what one aging pass does to a queue. */
module MlfqRuns {
  import opened Common
  import opened Procs
  import opened Mlfq
  import opened MlfqInv

  // ---------------------------------------------------------- whole runs

  predicate Boot(s: State)
  {
    && |s.procs| == NPROC && s.queues == [[], [], [], [], []] && s.nextpid == 1
    && forall p | 0 <= p < NPROC :: s.procs[p].state == UNUSED && s.procs[p].pid == 0 && !s.procs[p].demote
  }

  ghost predicate IsRun(ss: seq<State>, es: seq<Event>)
  {
    && |ss| == |es| + 1
    && forall i | 0 <= i < |es| ::
         Shape(ss[i]) && LevelsOk(ss[i]) && Enabled(ss[i], es[i]) && ss[i + 1] == Next(ss[i], es[i])
  }

  lemma {:induction false} RunKeeps(ss: seq<State>, es: seq<Event>, k: nat)
    requires IsRun(ss, es) && Boot(ss[0]) && k <= |es|
    ensures Inv(ss[k])
  {
    if k > 0 {
      RunKeeps(ss, es, k - 1);
      StepKeeps(ss[k - 1], es[k - 1]);
    } else {
      BootInv(ss[0]);
    }
  }

  lemma BootInv(s: State)
    requires Boot(s)
    ensures Inv(s)
  {
  }

  function Range(n: nat): (r: set<int>)
    ensures |r| == n && forall i :: i in r <==> 0 <= i < n
  {
    if n == 0 then {} else Range(n - 1) + {n - 1}
  }

  /** A sequence without repetition over n slots has at most n entries. */
  lemma Pigeonhole(q: seq<int>, n: nat)
    requires Distinct(q) && forall k | 0 <= k < |q| :: 0 <= q[k] < n
    ensures |q| <= n
  {
    DistinctSize(q);
    SubsetSize(Members(q), Range(n));
  }

  /** At every point of every run: a process is RUNNABLE exactly when it stands in the
      queue of its level, and it stands there once; queue indices stay within
      queue_ptr; in each queue the waits of the processes not killed never rise from front
      to back; a running process is within its quantum; its run time is the sum of its
      ticks at each level; its run and sleep times fit into the ticks since its creation;
      and the wait waitx reports of a zombie is not negative. */
  lemma SchedulerSound(ss: seq<State>, es: seq<Event>, k: nat)
    requires IsRun(ss, es) && Boot(ss[0]) && k <= |es|
    ensures Shape(ss[k])
    ensures var s := ss[k];
            && (forall p | 0 <= p < NPROC ::
                  s.procs[p].state == RUNNABLE <==> exists q :: 0 <= q < LEVELS && p in s.queues[q])
            && (forall q, j | 0 <= q < LEVELS && 0 <= j < |s.queues[q]| :: s.procs[s.queues[q][j]].level == q)
            && (forall q, j, l | 0 <= q < LEVELS && 0 <= j < l < |s.queues[q]| :: s.queues[q][j] != s.queues[q][l])
            && (forall q | 0 <= q < LEVELS :: |s.queues[q]| <= NPROC < QUEUE_SLOTS)
            && (forall q, j, l | 0 <= q < LEVELS && 0 <= j < l < |s.queues[q]| ::
                  var x, y := s.procs[s.queues[q][j]], s.procs[s.queues[q][l]];
                  !x.killed && !y.killed ==> x.wait >= y.wait)
            && (forall p | 0 <= p < NPROC && s.procs[p].state != UNUSED && s.procs[p].state != EMBRYO ::
                  var x := s.procs[p];
                  && 0 <= x.level < LEVELS && 0 <= x.slice <= Limit(x.level)
                  && |x.levelTicks| == LEVELS && x.run == Total(x.levelTicks)
                  && 0 <= x.run && 0 <= x.sleep && (x.state != ZOMBIE ==> x.run + x.sleep <= s.ticks - x.created)
                  && (x.state == ZOMBIE ==> (x.ended - x.created) - (x.run + x.sleep) >= 0))
  {
    RunKeeps(ss, es, k);
    var s := ss[k];
    forall q | 0 <= q < LEVELS ensures |s.queues[q]| <= NPROC {
      Pigeonhole(s.queues[q], NPROC);
    }
    forall q, j, l | 0 <= q < LEVELS && 0 <= j < l < |s.queues[q]|
      ensures PairOk(s.procs[s.queues[q][j]], s.procs[s.queues[q][l]])
    {
    }
    forall p | 0 <= p < NPROC
      ensures s.procs[p].state == RUNNABLE <==> exists q :: 0 <= q < LEVELS && p in s.queues[q]
    {
      if q :| 0 <= q < LEVELS && p in s.queues[q] {
        var j :| 0 <= j < |s.queues[q]| && s.queues[q][j] == p;
      }
    }
  }

  /** The scheduler idles only when nothing is RUNNABLE; otherwise exactly one process
      starts running, one that stood first in the highest busy queue after aging. */
  lemma NeverIdlesOverWork(ss: seq<State>, es: seq<Event>, k: nat)
    requires IsRun(ss, es) && Boot(ss[0]) && k <= |es|
    ensures var s := ss[k];
            && Shape(s)
            && var a := AgeAll(s); var t := Dispatch(s); var q := FirstBusy(a, 0);
               && (q == LEVELS <==> forall p | 0 <= p < NPROC :: s.procs[p].state != RUNNABLE)
               && (q == LEVELS ==> t == a == s)
               && (q < LEVELS ==> t == a.(queues := a.queues[q := a.queues[q][1..]],
                                          procs := a.procs[a.queues[q][0] :=
                                            a.procs[a.queues[q][0]].(slice := 0, state := RUNNING, wait := 0)]))
  {
    RunKeeps(ss, es, k);
    var s := ss[k];
    AgeAllKeeps(s);
    PickKeeps(AgeAll(s));
    AgeAllFrame(s);
    if forall p | 0 <= p < NPROC :: s.procs[p].state != RUNNABLE {
      EmptyQueues(s);
    }
  }

  lemma EmptyQueues(s: State)
    requires Inv(s) && forall p | 0 <= p < NPROC :: s.procs[p].state != RUNNABLE
    ensures AgeAll(s) == s
  {
    PickKeeps(s);
  }

  // --------------------------------------------------------- aging frames

  predicate Untouched(x: Proc, y: Proc, i: int)
  {
    y == x || (x.state == RUNNABLE && x.level == i && y == x.(wait := 0, level := i - 1))
  }

  lemma {:induction false} AgeFromFrame(s: State, i: int, j: nat)
    requires Inv(s) && 1 <= i < LEVELS
    ensures var t := AgeFrom(s, i, j);
            && (forall p | 0 <= p < NPROC :: Untouched(s.procs[p], t.procs[p], i))
            && t.ticks == s.ticks && t.nextpid == s.nextpid
    decreases |s.queues[i]| - j
  {
    if j < |s.queues[i]| {
      if Aged(s, s.queues[i][j], i) {
        var p := s.queues[i][j];
        assert s.procs[p].state == RUNNABLE && s.procs[p].level == i;
        PromoteKeeps(s, i, j);
        var u := Promote(s, p, i);
        AgeFromFrame(u, i, j + 1);
        UntouchedStep(s.procs, u.procs, AgeFrom(u, i, j + 1).procs, i, p);
      } else {
        AgeFromFrame(s, i, j + 1);
      }
    }
  }

  lemma UntouchedStep(x: seq<Proc>, u: seq<Proc>, y: seq<Proc>, i: int, p: int)
    requires |x| == |u| == |y| == NPROC && 0 <= p < NPROC && 1 <= i && x[p].state == RUNNABLE && x[p].level == i
    requires u == x[p := x[p].(wait := 0, level := i - 1)] && forall q | 0 <= q < NPROC :: Untouched(u[q], y[q], i)
    ensures forall q | 0 <= q < NPROC :: Untouched(x[q], y[q], i)
  {
    forall q | 0 <= q < NPROC ensures Untouched(x[q], y[q], i) {
      assert Untouched(u[q], y[q], i);
    }
  }

  /** One scheduling round raises a process by at most one level. */
  lemma AgeAllFrame(s: State)
    requires Inv(s)
    ensures forall p | 0 <= p < NPROC ::
              var x, y := s.procs[p], AgeAll(s).procs[p];
              y == x || (x.state == RUNNABLE && x.level >= 1 && y == x.(wait := 0, level := x.level - 1))
  {
    forall p | 0 <= p < NPROC
      ensures var x, y := s.procs[p], AgeAll(s).procs[p];
              y == x || (x.state == RUNNABLE && x.level >= 1 && y == x.(wait := 0, level := x.level - 1))
    {
      var a, b, c := AgedTo(s, 1), AgedTo(s, 2), AgedTo(s, 3);
      AgedToFrame(s, 1, p);
      AgedToFrame(s, 2, p);
      AgedToFrame(s, 3, p);
      AgedToFrame(s, 4, p);
      FourLevels(s.procs[p], a.procs[p], b.procs[p], c.procs[p], AgedTo(s, 4).procs[p]);
    }
  }

  /** The aging loop after its first n levels. */
  function AgedTo(s: State, n: nat): (t: State)
    requires Shape(s) && n < LEVELS
    ensures Shape(t)
  {
    if n == 0 then s else AgeFrom(AgedTo(s, n - 1), n, 0)
  }

  lemma {:induction false} AgedToKeeps(s: State, n: nat)
    requires Inv(s) && n < LEVELS
    ensures Inv(AgedTo(s, n))
  {
    if n > 0 {
      AgedToKeeps(s, n - 1);
      AgeFromKeeps(AgedTo(s, n - 1), n, 0);
    }
  }

  lemma {:induction false} AgedToFrame(s: State, n: nat, p: int)
    requires Inv(s) && 1 <= n < LEVELS && 0 <= p < NPROC
    ensures Untouched(AgedTo(s, n - 1).procs[p], AgedTo(s, n).procs[p], n)
  {
    AgedToKeeps(s, n - 1);
    AgeFromFrame(AgedTo(s, n - 1), n, 0);
  }

  lemma FourLevels(x: Proc, a: Proc, b: Proc, c: Proc, y: Proc)
    requires Untouched(x, a, 1) && Untouched(a, b, 2) && Untouched(b, c, 3) && Untouched(c, y, 4)
    ensures y == x || (x.state == RUNNABLE && x.level >= 1 && y == x.(wait := 0, level := x.level - 1))
  {
  }

  /** From one event to the next a live process changes level by at most one. */
  lemma LevelsMoveByOne(s: State, e: Event, p: int)
    requires Inv(s) && Enabled(s, e) && 0 <= p < NPROC
    requires s.procs[p].state != UNUSED && s.procs[p].state != EMBRYO
    ensures LevelsOk(s)
    ensures -1 <= Next(s, e).procs[p].level - s.procs[p].level <= 1
  {
    LevelsHold(s, NPROC);
    match e
    case Schedule => ScheduleLevels(s, p);
    case Wakeup(chan) => WakeLevels(s, chan, 0, NPROC, p);
    case KillPid(pid) => KillLevels(s, pid, p);
    case TimerTick => TickLevels(s, p);
    case _ =>
  }

  lemma TickLevels(s: State, p: int)
    requires Inv(s) && LevelsOk(s) && 0 <= p < NPROC
    ensures 0 <= Tick(s).procs[p].level - s.procs[p].level <= 1
  {
    var a := AccountAll(s);
    AccountAllKeeps(s);
    LevelsHold(a, 0);
    AccountOk(s.procs[p], s.ticks);
    WakeKeeps(a, TICKS_CHAN, 0, 0);
    WakeLevels(a, TICKS_CHAN, 0, 0, p);
    CheckLevels(WakeFrom(a, TICKS_CHAN, 0), 0, p);
  }

  lemma ScheduleLevels(s: State, p: int)
    requires Inv(s) && 0 <= p < NPROC
    ensures -1 <= Dispatch(s).procs[p].level - s.procs[p].level <= 0
  {
    AgeAllKeeps(s);
    AgeAllFrame(s);
    PickKeeps(AgeAll(s));
  }

  lemma KillLevels(s: State, pid: int, p: int)
    requires Inv(s) && LevelsOk(s) && 0 <= p < NPROC
    ensures Kill(s, pid).procs[p].level == s.procs[p].level
  {
  }

  lemma WokenLevel(s: State, i: int, n: int, p: int)
    requires InvFrom(s, n) && LevelsOk(s) && 0 <= i < NPROC && s.procs[i].state == SLEEPING && 0 <= p < NPROC
    ensures InvFrom(Woken(s, i), n) && Woken(s, i).procs[p].level == s.procs[p].level
  {
    WokenIs(s, i, n);
  }

  lemma {:induction false} WakeLevels(s: State, chan: int, i: nat, n: int, p: int)
    requires InvFrom(s, n) && LevelsOk(s) && i <= NPROC && 0 <= p < NPROC
    ensures WakeFrom(s, chan, i).procs[p].level == s.procs[p].level
    decreases NPROC - i
  {
    if i < NPROC {
      if s.procs[i].state == SLEEPING && s.procs[i].chan == chan {
        WokenLevel(s, i, n, p);
        WakeLevels(Woken(s, i), chan, i + 1, n, p);
      } else {
        WakeLevels(s, chan, i + 1, n, p);
      }
    }
  }

  lemma {:induction false} CheckLevels(s: State, i: nat, p: int)
    requires InvFrom(s, i) && LevelsOk(s) && i <= NPROC && 0 <= p < NPROC
    ensures var l := CheckFrom(s, i).procs[p].level;
            0 <= l - s.procs[p].level <= 1 && (p < i ==> l == s.procs[p].level)
    decreases NPROC - i
  {
    if i < NPROC {
      CheckKeeps(s, i);
      LevelsHold(Check(s, i), i + 1);
      CheckLevels(Check(s, i), i + 1, p);
    }
  }

  // ------------------------------------------------------ one aging pass

  /** What the aging loop leaves in a queue: after each process it takes off, it steps
      over the one that slid into the gap. */
  function Kept(s: State, i: int, q: seq<int>): (r: seq<int>)
    requires Shape(s) && 1 <= i < LEVELS && forall k | 0 <= k < |q| :: 0 <= q[k] < NPROC
    decreases |q|
  {
    if q == [] then []
    else if !Aged(s, q[0], i) then [q[0]] + Kept(s, i, q[1..])
    else if |q| == 1 then []
    else [q[1]] + Kept(s, i, q[2..])
  }

  /** What it takes off. */
  function Raised(s: State, i: int, q: seq<int>): (r: seq<int>)
    requires Shape(s) && 1 <= i < LEVELS && forall k | 0 <= k < |q| :: 0 <= q[k] < NPROC
    decreases |q|
  {
    if q == [] then []
    else if !Aged(s, q[0], i) then Raised(s, i, q[1..])
    else if |q| == 1 then [q[0]]
    else [q[0]] + Raised(s, i, q[2..])
  }

  lemma {:induction false} KeptFrame(s: State, t: State, i: int, q: seq<int>)
    requires Shape(s) && Shape(t) && 1 <= i < LEVELS && forall k | 0 <= k < |q| :: 0 <= q[k] < NPROC
    requires forall k | 0 <= k < |q| :: t.procs[q[k]] == s.procs[q[k]]
    ensures Kept(t, i, q) == Kept(s, i, q) && Raised(t, i, q) == Raised(s, i, q)
    decreases |q|
  {
    if q != [] {
      assert t.procs[q[0]] == s.procs[q[0]];
      if !Aged(s, q[0], i) {
        KeptFrame(s, t, i, q[1..]);
      } else if |q| > 1 {
        KeptFrame(s, t, i, q[2..]);
      }
    }
  }

  predicate Aging(s: State, t: State, i: int, q: seq<int>, j: nat)
    requires Shape(s) && 1 <= i < LEVELS && forall k | 0 <= k < |q| :: 0 <= q[k] < NPROC
    requires j <= |q|
  {
    && |t.queues| == LEVELS
    && t.queues[i] == q[..j] + Kept(s, i, q[j..])
    && t.queues[i - 1] == s.queues[i - 1] + Raised(s, i, q[j..])
    && forall l | 0 <= l < LEVELS && l != i && l != i - 1 :: t.queues[l] == s.queues[l]
  }

  /** The state after the promotion of the process at place j. */
  function Moved(s: State, i: int, j: nat): (u: State)
    requires Shape(s) && 1 <= i < LEVELS && j < |s.queues[i]|
    ensures Shape(u)
  {
    var p := s.queues[i][j];
    s.(queues := s.queues[i := Remove(s.queues[i], j)][i - 1 := s.queues[i - 1] + [p]],
       procs := s.procs[p := s.procs[p].(wait := 0, level := i - 1)])
  }

  lemma AgingStep(s: State, i: int, j: nat, t: State)
    requires Shape(s) && 1 <= i < LEVELS && j + 1 < |s.queues[i]| && Aged(s, s.queues[i][j], i)
    requires forall k | j < k < |s.queues[i]| :: s.queues[i][k] != s.queues[i][j]
    requires Aging(Moved(s, i, j), t, i, Moved(s, i, j).queues[i], j + 1)
    ensures Aging(s, t, i, s.queues[i], j)
  {
    var q := s.queues[i];
    var u := Moved(s, i, j);
    var rest := q[j + 2..];
    RemovedRest(q, j);
    forall k | 0 <= k < |rest| ensures u.procs[rest[k]] == s.procs[rest[k]] {
      assert rest[k] == q[j + 2 + k];
    }
    KeptFrame(s, u, i, rest);
    KeptRest(s, i, q[j..], q[j], q[j + 1], rest);
  }

  /** After the removal of place j, the loop goes on behind the one that slid into it. */
  lemma RemovedRest(q: seq<int>, j: nat)
    requires j + 1 < |q|
    ensures var u := Remove(q, j);
            |u| == |q| - 1 && u[..j + 1] == q[..j] + [q[j + 1]] && u[j + 1..] == q[j + 2..]
    ensures q[j..] == [q[j], q[j + 1]] + q[j + 2..]
  {
  }

  lemma KeptRest(s: State, i: int, r: seq<int>, x: int, y: int, rest: seq<int>)
    requires Shape(s) && 1 <= i < LEVELS && forall k | 0 <= k < |r| :: 0 <= r[k] < NPROC
    requires r == [x, y] + rest && 0 <= x < NPROC && Aged(s, x, i) && forall k | 0 <= k < |rest| :: 0 <= rest[k] < NPROC
    ensures Kept(s, i, r) == [y] + Kept(s, i, rest) && Raised(s, i, r) == [x] + Raised(s, i, rest)
  {
    assert r[0] == x && r[1] == y && r[2..] == rest;
  }

  lemma AgingLast(s: State, i: int, j: nat)
    requires Shape(s) && 1 <= i < LEVELS && j + 1 == |s.queues[i]| && Aged(s, s.queues[i][j], i)
    ensures Aging(s, Moved(s, i, j), i, s.queues[i], j)
  {
    assert s.queues[i][j..] == [s.queues[i][j]];
  }

  lemma AgingSkip(s: State, i: int, j: nat, t: State)
    requires Shape(s) && 1 <= i < LEVELS && j < |s.queues[i]| && !Aged(s, s.queues[i][j], i)
    requires Aging(s, t, i, s.queues[i], j + 1)
    ensures Aging(s, t, i, s.queues[i], j)
  {
    var q := s.queues[i];
    assert q[j..][1..] == q[j + 1..];
    assert q[..j] + [q[j]] == q[..j + 1];
  }

  /** The aging loop of the source computes exactly Kept and Raised. */
  lemma {:induction false} AgeFromIs(s: State, i: int, j: nat)
    requires Inv(s) && 1 <= i < LEVELS
    requires j <= |s.queues[i]|
    ensures Aging(s, AgeFrom(s, i, j), i, s.queues[i], j)
    decreases |s.queues[i]| - j
  {
    if j == |s.queues[i]| {
      assert s.queues[i][j..] == [];
    } else if !Aged(s, s.queues[i][j], i) {
      AgeFromIs(s, i, j + 1);
      AgingSkip(s, i, j, AgeFrom(s, i, j + 1));
    } else {
      PromoteKeeps(s, i, j);
      assert Promote(s, s.queues[i][j], i) == Moved(s, i, j);
      if j + 1 < |s.queues[i]| {
        AgeFromIs(Moved(s, i, j), i, j + 1);
        AgingStep(s, i, j, AgeFrom(Moved(s, i, j), i, j + 1));
      } else {
        AgingLast(s, i, j);
      }
    }
  }

  ghost predicate Subsequence(a: seq<int>, b: seq<int>)
    decreases |b|
  {
    a == [] || (b != [] && (Subsequence(a, b[1..]) || (a[0] == b[0] && Subsequence(a[1..], b[1..]))))
  }

  /** The pass moves processes, it does not lose or copy them. */
  lemma {:induction false} KeptAndRaised(s: State, i: int, q: seq<int>)
    requires Shape(s) && 1 <= i < LEVELS && forall k | 0 <= k < |q| :: 0 <= q[k] < NPROC
    ensures multiset(Kept(s, i, q)) + multiset(Raised(s, i, q)) == multiset(q)
    decreases |q|
  {
    if q == [] {
      return;
    }
    if !Aged(s, q[0], i) {
      KeptAndRaised(s, i, q[1..]);
      OneKept(q, Kept(s, i, q[1..]), Raised(s, i, q[1..]));
    } else if |q| > 1 {
      KeptAndRaised(s, i, q[2..]);
      OneOfTwo(q, Kept(s, i, q[2..]), Raised(s, i, q[2..]));
    } else {
      assert q == [q[0]];
    }
  }

  lemma OneKept(q: seq<int>, kept: seq<int>, raised: seq<int>)
    requires q != [] && multiset(kept) + multiset(raised) == multiset(q[1..])
    ensures multiset([q[0]] + kept) + multiset(raised) == multiset(q)
  {
    assert q == [q[0]] + q[1..];
  }

  lemma OneOfTwo(q: seq<int>, kept: seq<int>, raised: seq<int>)
    requires |q| > 1 && multiset(kept) + multiset(raised) == multiset(q[2..])
    ensures multiset([q[1]] + kept) + multiset([q[0]] + raised) == multiset(q)
  {
    assert q == [q[0]] + ([q[1]] + q[2..]);
  }

  /** Those that stay keep their order. */
  lemma {:induction false} KeptInOrder(s: State, i: int, q: seq<int>)
    requires Shape(s) && 1 <= i < LEVELS && forall k | 0 <= k < |q| :: 0 <= q[k] < NPROC
    ensures Subsequence(Kept(s, i, q), q)
    decreases |q|
  {
    if q != [] {
      if !Aged(s, q[0], i) {
        KeptInOrder(s, i, q[1..]);
        assert Kept(s, i, q)[1..] == Kept(s, i, q[1..]);
      } else if |q| > 1 {
        KeptInOrder(s, i, q[2..]);
        assert Kept(s, i, q)[1..] == Kept(s, i, q[2..]);
        assert q[1..][1..] == q[2..];
        assert Subsequence(Kept(s, i, q), q[1..]);
      }
    }
  }

  /** Of an aged prefix of the queue, the pass takes off every second process,
      starting with the first; the others move to half their distance. */
  lemma {:induction false} PassOnAgedPrefix(s: State, i: int, q: seq<int>, m: nat, k: nat)
    requires Shape(s) && 1 <= i < LEVELS && forall j | 0 <= j < |q| :: 0 <= q[j] < NPROC
    requires k < m <= |q| && forall j | 0 <= j < m :: Aged(s, q[j], i)
    ensures k % 2 == 0 ==> k / 2 < |Raised(s, i, q)| && Raised(s, i, q)[k / 2] == q[k]
    ensures k % 2 == 1 ==> k / 2 < |Kept(s, i, q)| && Kept(s, i, q)[k / 2] == q[k]
    decreases |q|
  {
    assert Aged(s, q[0], i);
    if k >= 2 {
      var r := q[2..];
      assert forall j | 0 <= j < m - 2 :: r[j] == q[j + 2];
      PassOnAgedPrefix(s, i, r, m - 2, k - 2);
      assert (k - 2) % 2 == k % 2 && (k - 2) / 2 == k / 2 - 1;
      assert Kept(s, i, q) == [q[1]] + Kept(s, i, r) && Raised(s, i, q) == [q[0]] + Raised(s, i, r);
    }
  }

  /** The process at place k of queue i and all before it are aged. */
  predicate AgedUpTo(s: State, i: int, k: nat)
    requires Shape(s) && 1 <= i < LEVELS
  {
    k < |s.queues[i]| && forall j | 0 <= j <= k :: Aged(s, s.queues[i][j], i)
  }

  /** With nobody killed up to there, being aged is a matter of standing in front:
      whoever stands before an aged process is aged too. */
  lemma AgedPrefix(s: State, i: int, k: nat)
    requires Inv(s) && 1 <= i < LEVELS && k < |s.queues[i]| && Aged(s, s.queues[i][k], i)
    requires forall j | 0 <= j <= k :: !s.procs[s.queues[i][j]].killed
    ensures AgedUpTo(s, i, k)
  {
    forall j | 0 <= j <= k ensures Aged(s, s.queues[i][j], i) {
      if j < k {
        assert PairOk(s.procs[s.queues[i][j]], s.procs[s.queues[i][k]]);
      }
    }
  }

  /** So one pass does this to an aged process at place k, if those before it are aged: even places (the front
      among them) go to the queue above, wait reset; odd ones stay, at half the
      distance from the front. */
  lemma AgingPass(s: State, i: int, k: nat)
    requires Inv(s) && 1 <= i < LEVELS && AgedUpTo(s, i, k)
    ensures var p := s.queues[i][k]; var t := AgeFrom(s, i, 0);
            if k % 2 == 0
            then |s.queues[i - 1]| + k / 2 < |t.queues[i - 1]| && t.queues[i - 1][|s.queues[i - 1]| + k / 2] == p
                 && t.procs[p].level == i - 1 && t.procs[p].wait == 0
            else k / 2 < |t.queues[i]| && t.queues[i][k / 2] == p && t.procs[p] == s.procs[p]
  {
    var p, t := s.queues[i][k], AgeFrom(s, i, 0);
    AgingPlace(s, i, k);
    AgeFromKeeps(s, i, 0);
    AgeFromFrame(s, i, 0);
    assert Untouched(s.procs[p], t.procs[p], i);
    AgedLevel(s, t, i, k);
  }

  /** Where the pass puts an aged process. */
  lemma AgingPlace(s: State, i: int, k: nat)
    requires Inv(s) && 1 <= i < LEVELS && AgedUpTo(s, i, k)
    ensures var p := s.queues[i][k]; var t := AgeFrom(s, i, 0);
            if k % 2 == 0
            then |s.queues[i - 1]| + k / 2 < |t.queues[i - 1]| && t.queues[i - 1][|s.queues[i - 1]| + k / 2] == p
            else k / 2 < |t.queues[i]| && t.queues[i][k / 2] == p
  {
    var q, t := s.queues[i], AgeFrom(s, i, 0);
    PassOnAgedPrefix(s, i, q, k + 1, k);
    AgeFromIs(s, i, 0);
    assert q[0..] == q && q[..0] == [];
    assert t.queues[i] == Kept(s, i, q) && t.queues[i - 1] == s.queues[i - 1] + Raised(s, i, q);
  }

  /** Its level follows from its queue. */
  lemma AgedLevel(s: State, t: State, i: int, k: nat)
    requires Inv(s) && Inv(t) && 1 <= i < LEVELS && k < |s.queues[i]|
    requires Untouched(s.procs[s.queues[i][k]], t.procs[s.queues[i][k]], i)
    ensures s.queues[i][k] in t.queues[i - 1] ==>
              t.procs[s.queues[i][k]].level == i - 1 && t.procs[s.queues[i][k]].wait == 0
    ensures s.queues[i][k] in t.queues[i] ==> t.procs[s.queues[i][k]] == s.procs[s.queues[i][k]]
  {
    var p := s.queues[i][k];
    assert s.procs[p].level == i;
    if p in t.queues[i - 1] {
      var j :| 0 <= j < |t.queues[i - 1]| && t.queues[i - 1][j] == p;
    }
    if p in t.queues[i] {
      var j :| 0 <= j < |t.queues[i]| && t.queues[i][j] == p;
    }
  }
}
