/** How long an aged process can wait in its queue, over whole runs of the scheduler. */
module MlfqAging {
  import opened Common
  import opened Procs
  import opened Mlfq
  import opened MlfqInv
  import opened MlfqRuns

  /** p stands at place j of queue i, aged, and so is everybody before it. */
  predicate Stands(s: State, i: int, p: int, j: nat)
    requires Shape(s) && 1 <= i < LEVELS
  {
    AgedUpTo(s, i, j) && s.queues[i][j] == p
  }

  /** p has left queue i by being dispatched or raised. */
  predicate Freed(s: State, i: int, p: int)
    requires Shape(s) && 0 <= p < NPROC
  {
    s.procs[p].state == RUNNING || (s.procs[p].state == RUNNABLE && s.procs[p].level == i - 1)
  }

  /** From s to t nobody leaves queue i, or loses a wait there. */
  predicate Grows(s: State, t: State, i: int)
    requires Shape(s) && Shape(t) && 0 <= i < LEVELS
  {
    && s.queues[i] <= t.queues[i]
    && forall l | 0 <= l < |s.queues[i]| :: t.procs[s.queues[i][l]].wait >= s.procs[s.queues[i][l]].wait
  }

  lemma GrowsOn(s: State, t: State, u: State, i: int)
    requires Shape(s) && Shape(t) && Shape(u) && 0 <= i < LEVELS && Grows(s, t, i) && Grows(t, u, i)
    ensures Grows(s, u, i)
  {
    forall l | 0 <= l < |s.queues[i]|
      ensures u.procs[s.queues[i][l]].wait >= s.procs[s.queues[i][l]].wait
    {
      assert t.queues[i][l] == s.queues[i][l];
    }
  }

  lemma StandsOn(s: State, t: State, i: int, p: int, j: nat)
    requires Shape(s) && Shape(t) && 1 <= i < LEVELS && Grows(s, t, i) && Stands(s, i, p, j)
    ensures Stands(t, i, p, j)
  {
    forall l | 0 <= l <= j ensures Aged(t, t.queues[i][l], i) {
      assert t.queues[i][l] == s.queues[i][l];
      assert Aged(s, s.queues[i][l], i);
    }
  }

  // ------------------------------------------ events that take nobody off

  /** A change to one process that is not queued. */
  lemma UpdateGrows(s: State, t: State, p: int, i: int)
    requires Inv(s) && Shape(t) && 0 <= p < NPROC && 0 <= i < LEVELS && s.procs[p].state != RUNNABLE
    requires s.queues[i] <= t.queues[i]
    requires forall q | 0 <= q < NPROC && q != p :: t.procs[q].wait >= s.procs[q].wait
    ensures Grows(s, t, i)
  {
  }

  /** push_back_process only appends. */
  lemma PushGrows(s: State, t: State, p: int, q: int, i: int)
    requires Shape(s) && Shape(t) && 0 <= p < NPROC && 0 <= q < LEVELS && 0 <= i < LEVELS
    requires t.queues == s.queues && forall x | 0 <= x < NPROC :: t.procs[x].wait == s.procs[x].wait
    ensures Grows(s, PushBack(t, p, q), i)
  {
  }

  lemma WokenGrows(s: State, c: int, i: int)
    requires Shape(s) && LevelsOk(s) && 0 <= c < NPROC && s.procs[c].state == SLEEPING && 0 <= i < LEVELS
    ensures Grows(s, Woken(s, c), i)
  {
    var x := s.procs[c].(state := RUNNABLE, slice := 0);
    PushGrows(s, s.(procs := s.procs[c := x]), c, x.level, i);
  }

  lemma {:induction false} WakeGrows(s: State, chan: int, c: nat, i: int)
    requires Shape(s) && LevelsOk(s) && c <= NPROC && 0 <= i < LEVELS
    ensures Grows(s, WakeFrom(s, chan, c), i)
    decreases NPROC - c
  {
    if c < NPROC {
      if s.procs[c].state == SLEEPING && s.procs[c].chan == chan {
        WokenGrows(s, c, i);
        WakeGrows(Woken(s, c), chan, c + 1, i);
        GrowsOn(s, Woken(s, c), WakeFrom(Woken(s, c), chan, c + 1), i);
      } else {
        WakeGrows(s, chan, c + 1, i);
      }
    }
  }

  lemma CheckGrows(s: State, c: int, i: int)
    requires InvFrom(s, c) && LevelsOk(s) && 0 <= c < NPROC && 0 <= i < LEVELS
    ensures Grows(s, Check(s, c), i)
  {
    CheckKeeps(s, c);
    forall l | 0 <= l < |s.queues[i]| ensures s.procs[s.queues[i][l]].state == RUNNABLE {
    }
  }

  lemma {:induction false} CheckFromGrows(s: State, c: nat, i: int)
    requires InvFrom(s, c) && LevelsOk(s) && c <= NPROC && 0 <= i < LEVELS
    ensures Grows(s, CheckFrom(s, c), i)
    decreases NPROC - c
  {
    if c < NPROC {
      CheckKeeps(s, c);
      CheckGrows(s, c, i);
      var t := Check(s, c);
      LevelsHold(t, c + 1);
      CheckFromGrows(t, c + 1, i);
      GrowsOn(s, t, CheckFrom(t, c + 1), i);
    }
  }

  lemma TickGrows(s: State, i: int)
    requires Inv(s) && LevelsOk(s) && 0 <= i < LEVELS
    ensures Grows(s, Tick(s), i)
  {
    var a := AccountAll(s);
    AccountAllKeeps(s);
    LevelsHold(a, 0);
    forall l | 0 <= l < |s.queues[i]|
      ensures a.procs[s.queues[i][l]].wait >= s.procs[s.queues[i][l]].wait
    {
      AccountOk(s.procs[s.queues[i][l]], s.ticks);
    }
    var w := WakeFrom(a, TICKS_CHAN, 0);
    WakeKeeps(a, TICKS_CHAN, 0, 0);
    WakeGrows(a, TICKS_CHAN, 0, i);
    CheckFromGrows(w, 0, i);
    GrowsOn(s, a, w, i);
    GrowsOn(s, w, CheckFrom(w, 0), i);
  }

  lemma KillGrows(s: State, pid: int, i: int)
    requires Shape(s) && LevelsOk(s) && 0 <= i < LEVELS
    ensures Grows(s, Kill(s, pid), i)
  {
    var p := SlotOf(s.procs, pid, 0);
    if p < NPROC {
      var k := s.(procs := s.procs[p := s.procs[p].(killed := true)]);
      if k.procs[p].state == SLEEPING {
        PushGrows(s, k, p, k.procs[p].level, i);
      }
    }
  }

  /** Only the scheduler takes a process off a queue. */
  lemma StepGrows(s: State, e: Event, i: int)
    requires Inv(s) && LevelsOk(s) && Enabled(s, e) && e != Schedule && 0 <= i < LEVELS
    ensures Grows(s, Next(s, e), i)
  {
    match e
    case Alloc =>
      var p := FirstUnused(s.procs, 0);
      if p < NPROC {
        UpdateGrows(s, Next(s, e), p, i);
      }
    case Init(p) => UpdateGrows(s, Next(s, e), p, i);
    case Abort(p) => UpdateGrows(s, Next(s, e), p, i);
    case Start(p) => PushGrows(s, s.(procs := s.procs[p := s.procs[p].(state := RUNNABLE)]), p, 0, i);
    case Sleep(p, _) => UpdateGrows(s, Next(s, e), p, i);
    case Wakeup(chan) => WakeGrows(s, chan, 0, i);
    case KillPid(pid) => KillGrows(s, pid, i);
    case Exit(p) => UpdateGrows(s, Next(s, e), p, i);
    case Reap(p) => UpdateGrows(s, Next(s, e), p, i);
    case TimerTick => TickGrows(s, i);
  }

  // -------------------------------------------------------- the scheduler

  /** The pass over another queue. */
  lemma OtherPass(s: State, n: int, i: int)
    requires Inv(s) && 1 <= n < LEVELS && 0 <= i < LEVELS && n != i
    ensures Grows(s, AgeFrom(s, n, 0), i)
  {
    AgeFromIs(s, n, 0);
    AgeFromFrame(s, n, 0);
    forall l | 0 <= l < |s.queues[i]|
      ensures AgeFrom(s, n, 0).procs[s.queues[i][l]] == s.procs[s.queues[i][l]]
    {
      assert s.procs[s.queues[i][l]].level == i;
    }
  }

  /** The pass over its own queue raises p or halves its distance from the front. */
  lemma OwnPass(s: State, i: int, p: int, j: nat)
    requires Inv(s) && 1 <= i < LEVELS && Stands(s, i, p, j)
    ensures var t := AgeFrom(s, i, 0);
            if j % 2 == 0 then t.procs[p].state == RUNNABLE && t.procs[p].level == i - 1
            else Stands(t, i, p, j / 2)
  {
    var t := AgeFrom(s, i, 0);
    AgingPass(s, i, j);
    if j % 2 == 1 {
      forall l | 0 <= l <= j / 2 ensures l < |t.queues[i]| && Aged(t, t.queues[i][l], i) {
        StillAged(s, i, l);
        assert Aged(s, s.queues[i][2 * l + 1], i);
      }
    } else {
      StillRunnable(s, i, p, j);
    }
  }

  lemma StillRunnable(s: State, i: int, p: int, j: nat)
    requires Inv(s) && 1 <= i < LEVELS && j < |s.queues[i]| && s.queues[i][j] == p
    ensures AgeFrom(s, i, 0).procs[p].state == RUNNABLE
  {
    AgeFromFrame(s, i, 0);
    assert s.procs[p].state == RUNNABLE;
    assert Untouched(s.procs[p], AgeFrom(s, i, 0).procs[p], i);
  }

  /** Whoever the pass leaves in an aged prefix keeps its wait. */
  lemma StillAged(s: State, i: int, l: nat)
    requires Inv(s) && 1 <= i < LEVELS && AgedUpTo(s, i, 2 * l + 1)
    ensures var t := AgeFrom(s, i, 0);
            l < |t.queues[i]| && t.queues[i][l] == s.queues[i][2 * l + 1]
              && t.procs[t.queues[i][l]] == s.procs[t.queues[i][l]]
  {
    var k := 2 * l + 1;
    assert k % 2 == 1 && k / 2 == l;
    AgingPass(s, i, k);
  }

  /** The aging passes of levels n + 1 .. m. */
  lemma {:induction false} LaterPasses(s: State, n: nat, m: nat, i: int, p: int, j: nat)
    requires Inv(s) && n <= m < LEVELS && 1 <= i < LEVELS && 0 <= p < NPROC && !(n < i <= m)
    ensures Stands(AgedTo(s, n), i, p, j) ==> Stands(AgedTo(s, m), i, p, j)
    ensures var x := AgedTo(s, n).procs[p];
            n >= i && x.state == RUNNABLE && x.level == i - 1 ==> AgedTo(s, m).procs[p] == x
    decreases m
  {
    if n < m {
      LaterPasses(s, n, m - 1, i, p, j);
      var t := AgedTo(s, m - 1);
      AgedToKeeps(s, m - 1);
      OtherPass(t, m, i);
      AgedToFrame(s, m, p);
      if Stands(t, i, p, j) {
        StandsOn(t, AgedTo(s, m), i, p, j);
      }
    }
  }

  lemma AgeAllIs(s: State)
    requires Shape(s)
    ensures AgeAll(s) == AgedTo(s, 4)
  {
    assert AgedTo(s, 1) == AgeFrom(s, 1, 0);
    assert AgedTo(s, 2) == AgeFrom(AgedTo(s, 1), 2, 0);
    assert AgedTo(s, 3) == AgeFrom(AgedTo(s, 2), 3, 0);
  }

  lemma AllPasses(s: State, i: int, p: int, j: nat)
    requires Inv(s) && 1 <= i < LEVELS && Stands(s, i, p, j)
    ensures var t := AgeAll(s);
            if j % 2 == 0 then t.procs[p].state == RUNNABLE && t.procs[p].level == i - 1
            else Stands(t, i, p, j / 2)
  {
    AgeAllIs(s);
    LaterPasses(s, 0, i - 1, i, p, j);
    AgedToKeeps(s, i - 1);
    OwnPass(AgedTo(s, i - 1), i, p, j);
    LaterPasses(s, i, 4, i, p, j / 2);
  }

  /** The choice of the front of a queue frees it, or brings p one place forward, or does
      not touch its queue. */
  lemma PickStep(s: State, i: int, p: int, j: nat)
    requires Inv(s) && 1 <= i < LEVELS && Stands(s, i, p, j)
    ensures var t := Pick(s);
            Freed(t, i, p) || Stands(t, i, p, j) || (j > 0 && Stands(t, i, p, j - 1))
  {
    PickKeeps(s);
    var k := FirstBusy(s, 0);
    if k < LEVELS {
      if k != i {
        PickElsewhere(s, Pick(s), k, i, p, j);
      } else if j > 0 {
        PickAhead(s, Pick(s), i, p, j);
      }
    }
  }

  /** t is s with the front of queue k set running. */
  predicate Picked(s: State, t: State, k: int)
    requires Shape(s)
  {
    && 0 <= k < LEVELS && s.queues[k] != []
    && var f := s.queues[k][0];
       t == s.(queues := s.queues[k := s.queues[k][1..]],
               procs := s.procs[f := s.procs[f].(slice := 0, state := RUNNING, wait := 0)])
  }

  lemma PickElsewhere(s: State, t: State, k: int, i: int, p: int, j: nat)
    requires Shape(s) && QueuesOk(s) && Shape(t) && Picked(s, t, k) && k != i && 1 <= i < LEVELS && Stands(s, i, p, j)
    ensures Stands(t, i, p, j)
  {
    forall l | 0 <= l < |s.queues[i]| ensures s.queues[i][l] != s.queues[k][0] {
      assert s.procs[s.queues[i][l]].level == i && s.procs[s.queues[k][0]].level == k;
    }
    StandsOn(s, t, i, p, j);
  }

  lemma PickAhead(s: State, t: State, i: int, p: int, j: nat)
    requires Shape(s) && QueuesOk(s) && Shape(t) && Picked(s, t, i) && 1 <= i < LEVELS && j > 0 && Stands(s, i, p, j)
    ensures Stands(t, i, p, j - 1)
  {
    forall l | 0 <= l <= j - 1 ensures Aged(t, t.queues[i][l], i) {
      assert t.queues[i][l] == s.queues[i][l + 1] != s.queues[i][0];
      assert Aged(s, s.queues[i][l + 1], i);
    }
  }

  /** One round of the scheduler frees p, or at least halves its distance. */
  lemma ScheduleStep(s: State, i: int, p: int, j: nat) returns (j': nat)
    requires Inv(s) && 1 <= i < LEVELS && Stands(s, i, p, j)
    ensures var t := Dispatch(s);
            Freed(t, i, p) || (j % 2 == 1 && j' <= j / 2 && Stands(t, i, p, j'))
  {
    AllPasses(s, i, p, j);
    AgeAllKeeps(s);
    j' := PickNext(AgeAll(s), i, p, j);
  }

  /** The choice, after the passes have raised p or halved its place. */
  lemma PickNext(a: State, i: int, p: int, j: nat) returns (j': nat)
    requires Inv(a) && 1 <= i < LEVELS && 0 <= p < NPROC
    requires if j % 2 == 0 then a.procs[p].state == RUNNABLE && a.procs[p].level == i - 1 else Stands(a, i, p, j / 2)
    ensures Freed(Pick(a), i, p) || (j % 2 == 1 && j' <= j / 2 && Stands(Pick(a), i, p, j'))
  {
    j' := j / 2;
    if j % 2 == 0 {
      PickKeeps(a);
    } else {
      PickStep(a, i, p, j / 2);
      if !Freed(Pick(a), i, p) && !Stands(Pick(a), i, p, j / 2) {
        j' := j / 2 - 1;
      }
    }
  }

  // ------------------------------------------------------------ whole runs

  /** How often the scheduler ran among the events a .. b. */
  function Rounds(es: seq<Event>, a: nat, b: nat): nat
    requires a <= b <= |es|
    decreases b - a
  {
    if a == b then 0 else (if es[a] == Schedule then 1 else 0) + Rounds(es, a + 1, b)
  }

  /** One event of a run. */
  lemma EventStep(s: State, e: Event, i: int, p: int, j: nat) returns (j': nat)
    requires Inv(s) && LevelsOk(s) && Enabled(s, e) && 1 <= i < LEVELS && 0 <= p < NPROC && Stands(s, i, p, j)
    ensures var t := Next(s, e);
            Freed(t, i, p) || (Stands(t, i, p, j') && if e == Schedule then 2 * j' + 1 <= j else j' == j)
  {
    if e == Schedule {
      j' := ScheduleStep(s, i, p, j);
    } else {
      j' := j;
      StepGrows(s, e, i);
      StandsOn(s, Next(s, e), i, p, j);
    }
  }

  lemma RunStep(ss: seq<State>, es: seq<Event>, a: nat, i: int, p: int, j: nat) returns (j': nat)
    requires IsRun(ss, es) && Boot(ss[0]) && a < |es| && 1 <= i < LEVELS && 0 <= p < NPROC
    requires Shape(ss[a]) && Stands(ss[a], i, p, j)
    ensures Shape(ss[a + 1])
    ensures Freed(ss[a + 1], i, p)
            || (Stands(ss[a + 1], i, p, j') && if es[a] == Schedule then 2 * j' + 1 <= j else j' == j)
  {
    RunKeeps(ss, es, a);
    j' := EventStep(ss[a], es[a], i, p, j);
  }

  lemma RoundsLeft(es: seq<Event>, a: nat, b: nat, j: nat, j': nat)
    requires a <= b <= |es| && j + 1 < Pow2(Rounds(es, a, b))
    ensures a < b
    ensures (if es[a] == Schedule then 2 * j' + 1 <= j else j' == j) ==> j' + 1 < Pow2(Rounds(es, a + 1, b))
  {
  }

  ghost predicate FreedAt(ss: seq<State>, c: nat, i: int, p: int)
  {
    c < |ss| && Shape(ss[c]) && 0 <= p < NPROC && Freed(ss[c], i, p)
  }

  lemma {:induction false} FreedWithin(ss: seq<State>, es: seq<Event>, a: nat, b: nat, i: int, p: int, j: nat)
    returns (c: nat)
    requires IsRun(ss, es) && Boot(ss[0]) && a <= b <= |es| && 1 <= i < LEVELS && 0 <= p < NPROC
    requires Shape(ss[a]) && Stands(ss[a], i, p, j)
    requires j + 1 < Pow2(Rounds(es, a, b))
    ensures a < c <= b && FreedAt(ss, c, i, p)
    decreases b - a
  {
    RoundsLeft(es, a, b, j, j);
    var j' := RunStep(ss, es, a, i, p, j);
    RoundsLeft(es, a, b, j, j');
    c := a + 1;
    if !Freed(ss[a + 1], i, p) {
      c := FreedWithin(ss, es, a + 1, b, i, p, j');
    }
  }

  /** Aging misses nobody for long.  In every run, if at some point an aged process stands
      at place k of its queue and nobody up to there is killed, then whatever else happens,
      it is running or has been raised a level by the time the scheduler has gone round n
      times, 2^n exceeding k + 1; hence after 7 rounds in any case. */
  lemma RaisedWithin(ss: seq<State>, es: seq<Event>, a: nat, b: nat, i: int, k: nat)
    requires IsRun(ss, es) && Boot(ss[0]) && a <= b <= |es| && 1 <= i < LEVELS
    requires Shape(ss[a]) && k < |ss[a].queues[i]| && Aged(ss[a], ss[a].queues[i][k], i)
    requires forall j | 0 <= j <= k :: !ss[a].procs[ss[a].queues[i][j]].killed
    requires k + 1 < Pow2(Rounds(es, a, b)) || Rounds(es, a, b) >= 7
    ensures exists c :: a < c <= b && FreedAt(ss, c, i, ss[a].queues[i][k])
  {
    RunKeeps(ss, es, a);
    AgedPrefix(ss[a], i, k);
    if Rounds(es, a, b) >= 7 {
      Pigeonhole(ss[a].queues[i], NPROC);
      PowGrows(7, Rounds(es, a, b));
    }
    var c := FreedWithin(ss, es, a, b, i, ss[a].queues[i][k], k);
  }

  lemma {:induction false} PowGrows(m: nat, n: nat)
    requires m <= n
    ensures Pow2(m) <= Pow2(n)
    ensures Pow2(7) == 128
  {
    if m < n {
      PowGrows(m, n - 1);
    }
    assert Pow2(3) == 8;
    assert Pow2(5) == 32;
  }
}
