/** What every run of the MLFQ scheduler keeps. */
module MlfqInv {
  import opened Procs
  import opened Mlfq

  // ---------------------------------------------------------- invariant

  function Total(ts: seq<int>): int
    requires |ts| == LEVELS
  {
    ts[0] + ts[1] + ts[2] + ts[3] + ts[4]
  }

  /** What holds of a live process by itself: its level, its slice against the
      quantum, and its tick accounts against the clock. */
  predicate LiveOk(x: Proc, now: int)
  {
    && x.ready && 0 <= x.level < LEVELS && 0 <= x.wait
    && 0 <= x.slice <= Limit(x.level)
    && |x.levelTicks| == LEVELS && x.run == Total(x.levelTicks)
    && 0 <= x.run && 0 <= x.sleep && x.created <= now
    && (x.state != ZOMBIE ==> x.run + x.sleep <= now - x.created)
    && (x.state == ZOMBIE ==> x.ended <= now && x.run + x.sleep <= x.ended - x.created)
    && (x.state == RUNNING || x.state == SLEEPING ==> x.wait == 0)
    && (x.state == RUNNABLE && x.slice != 0 ==> x.killed && x.wait == 0)
  }

  predicate ProcOk(x: Proc, now: int)
  {
    && !x.demote
    && (x.state == EMBRYO && x.ready ==> x == Initialised(x, x.created) && x.created <= now)
    && (x.state != UNUSED && x.state != EMBRYO ==> LiveOk(x, now))
  }

  predicate PidsOk(s: State)
  {
    && 1 <= s.nextpid
    && (forall p | 0 <= p < |s.procs| :: 0 <= s.procs[p].pid < s.nextpid)
    && (forall p | 0 <= p < |s.procs| :: s.procs[p].state != UNUSED ==> s.procs[p].pid > 0)
    && (forall p, q | 0 <= p < q < |s.procs| :: s.procs[p].pid == s.procs[q].pid ==> s.procs[p].pid == 0)
  }

  /** The queues hold each RUNNABLE process once, in the queue of its level, and
      nothing else. */
  predicate QueuesOk(s: State)
    requires Shape(s)
  {
    && (forall q, k | 0 <= q < LEVELS && 0 <= k < |s.queues[q]| ::
          s.procs[s.queues[q][k]].state == RUNNABLE && s.procs[s.queues[q][k]].level == q)
    && (forall q, k, l | 0 <= q < LEVELS && 0 <= k < l < |s.queues[q]| :: s.queues[q][k] != s.queues[q][l])
    && (forall p | 0 <= p < NPROC && s.procs[p].state == RUNNABLE ::
          0 <= s.procs[p].level < LEVELS && p in s.queues[s.procs[p].level])
  }

  /** In each queue the waits of the processes not killed never rise from front to back. */
  predicate OrderOk(s: State)
    requires Shape(s)
  {
    forall q, k, l | 0 <= q < LEVELS && 0 <= k < l < |s.queues[q]| ::
      PairOk(s.procs[s.queues[q][k]], s.procs[s.queues[q][l]])
  }

  predicate PairOk(x: Proc, y: Proc)
  {
    !x.killed && !y.killed ==> x.wait >= y.wait
  }

  /** A running process one tick past its quantum, before the timer check sees it. */
  predicate Overdue(x: Proc, now: int)
  {
    && x.state == RUNNING && ProcOk(x.(slice := x.slice - 1), now)
    && x.slice == Limit(x.level) + 1
  }

  /** The invariant, in which the timer check has yet to visit the slots from i on. */
  predicate InvFrom(s: State, i: int)
  {
    && Shape(s) && PidsOk(s) && QueuesOk(s) && OrderOk(s)
    && forall p | 0 <= p < NPROC :: ProcOk(s.procs[p], s.ticks) || (i <= p && Overdue(s.procs[p], s.ticks))
  }

  predicate Inv(s: State)
  {
    InvFrom(s, NPROC)
  }

  lemma LevelsHold(s: State, i: int)
    requires InvFrom(s, i)
    ensures LevelsOk(s)
  {
  }

  // ----------------------------------------------- one process changes

  /** A change to one process that neither enters nor leaves RUNNABLE. */
  lemma UpdateKeeps(s: State, p: int, x: Proc)
    requires Inv(s) && 0 <= p < NPROC
    requires ProcOk(x, s.ticks) && x.pid == s.procs[p].pid
    requires s.procs[p].state != RUNNABLE && x.state != RUNNABLE && (x.state != UNUSED ==> x.pid > 0)
    ensures Inv(s.(procs := s.procs[p := x]))
  {
  }

  lemma PidsUpdate(s: State, t: State, p: int)
    requires PidsOk(s) && 0 <= p < |s.procs| == |t.procs| && t.nextpid == s.nextpid
    requires forall i | 0 <= i < |s.procs| && i != p :: t.procs[i] == s.procs[i]
    requires t.procs[p].pid == s.procs[p].pid && (t.procs[p].state != UNUSED ==> t.procs[p].pid > 0)
    ensures PidsOk(t)
  {
  }

  /** Entering RUNNABLE: nothing in the queue has the process's pid, so push_back
      appends, and every invariant is kept. */
  lemma EnqueueKeeps(s: State, p: int, x: Proc, q: int, n: int)
    requires InvFrom(s, n) && 0 <= p < NPROC && 0 <= q < LEVELS
    requires s.procs[p].state != RUNNABLE && x.state == RUNNABLE && x.pid == s.procs[p].pid && x.pid > 0
    requires x.wait == 0 && ProcOk(x.(level := q), s.ticks)
    ensures var t := PushBack(s.(procs := s.procs[p := x]), p, q);
            && t == s.(queues := s.queues[q := s.queues[q] + [p]], procs := s.procs[p := x.(level := q)])
            && InvFrom(t, n)
  {
    PushIs(s, p, x, q, n);
    var t := s.(queues := s.queues[q := s.queues[q] + [p]], procs := s.procs[p := x.(level := q)]);
    PidsUpdate(s, t, p);
    AppendQueues(s, t, p, q);
    AppendOrder(s, t, p, q);
  }

  lemma PushIs(s: State, p: int, x: Proc, q: int, n: int)
    requires InvFrom(s, n) && 0 <= p < NPROC && 0 <= q < LEVELS
    requires s.procs[p].state != RUNNABLE && x.pid == s.procs[p].pid && x.pid > 0
    ensures PushBack(s.(procs := s.procs[p := x]), p, q)
            == s.(queues := s.queues[q := s.queues[q] + [p]], procs := s.procs[p := x.(level := q)])
  {
    var u, queue := s.(procs := s.procs[p := x]), s.queues[q];
    forall k | 0 <= k < |queue| ensures u.procs[queue[k]].pid != x.pid {
      assert s.procs[queue[k]].state == RUNNABLE;
    }
    assert FindPid(u.procs, queue, x.pid, 0) == |queue|;
    assert u.procs[p := x.(level := q)] == s.procs[p := x.(level := q)];
  }

  predicate WaitsOk(s: State)
  {
    forall i | 0 <= i < |s.procs| && s.procs[i].state == RUNNABLE :: s.procs[i].wait >= 0
  }

  lemma AppendQueues(s: State, t: State, p: int, q: int)
    requires Shape(s) && QueuesOk(s) && Shape(t) && 0 <= p < NPROC && 0 <= q < LEVELS
    requires s.procs[p].state != RUNNABLE
    requires t.queues == s.queues[q := s.queues[q] + [p]]
    requires forall i | 0 <= i < NPROC && i != p :: t.procs[i] == s.procs[i]
    requires t.procs[p].state == RUNNABLE && t.procs[p].level == q
    ensures QueuesOk(t)
  {
    forall i | 0 <= i < NPROC && t.procs[i].state == RUNNABLE
      ensures 0 <= t.procs[i].level < LEVELS && i in t.queues[t.procs[i].level]
    {
      if i == p {
        assert t.queues[q][|s.queues[q]|] == p;
      } else {
        var l := s.procs[i].level;
        var k :| 0 <= k < |s.queues[l]| && s.queues[l][k] == i;
        assert t.queues[l][k] == i;
      }
    }
  }

  lemma AppendOrder(s: State, t: State, p: int, q: int)
    requires Shape(s) && QueuesOk(s) && OrderOk(s) && WaitsOk(s) && Shape(t) && 0 <= p < NPROC && 0 <= q < LEVELS
    requires s.procs[p].state != RUNNABLE
    requires t.queues == s.queues[q := s.queues[q] + [p]]
    requires forall i | 0 <= i < NPROC && i != p :: t.procs[i] == s.procs[i]
    requires t.procs[p].wait == 0
    ensures OrderOk(t)
  {
    forall r, k, l | 0 <= r < LEVELS && 0 <= k < l < |t.queues[r]|
      ensures PairOk(t.procs[t.queues[r][k]], t.procs[t.queues[r][l]])
    {
      assert t.queues[r][k] == s.queues[r][k] != p;
      if l < |s.queues[r]| {
        assert t.queues[r][l] == s.queues[r][l] != p;
      } else {
        assert t.queues[r][l] == p;
      }
    }
  }

  /** A queue entry is found at its own place. */
  lemma FindSelf(s: State, q: int, k: int)
    requires Inv(s) && 0 <= q < LEVELS && 0 <= k < |s.queues[q]|
    ensures FindPid(s.procs, s.queues[q], s.procs[s.queues[q][k]].pid, 0) == k
  {
    var queue := s.queues[q];
    var pid := s.procs[queue[k]].pid;
    var f := FindPid(s.procs, queue, pid, 0);
    assert s.procs[queue[k]].state == RUNNABLE;
    assert f <= k;
    assert s.procs[queue[f]].pid == pid;
  }

  lemma RemoveQueues(s: State, t: State, q: int, k: int)
    requires Shape(s) && QueuesOk(s) && Shape(t) && 0 <= q < LEVELS && 0 <= k < |s.queues[q]|
    requires t.queues == s.queues[q := Remove(s.queues[q], k)]
    requires forall i | 0 <= i < NPROC && i != s.queues[q][k] :: t.procs[i] == s.procs[i]
    requires t.procs[s.queues[q][k]].state != RUNNABLE
    ensures QueuesOk(t)
  {
    var p := s.queues[q][k];
    forall r, j | 0 <= r < LEVELS && 0 <= j < |t.queues[r]|
      ensures t.queues[r][j] != p && t.queues[r][j] == s.queues[r][if r == q && j >= k then j + 1 else j]
    {
      assert s.procs[p].level == q;
      assert r != q ==> s.procs[s.queues[r][j]].level == r;
    }
    forall i | 0 <= i < NPROC && t.procs[i].state == RUNNABLE
      ensures 0 <= t.procs[i].level < LEVELS && i in t.queues[t.procs[i].level]
    {
      var l := s.procs[i].level;
      var j :| 0 <= j < |s.queues[l]| && s.queues[l][j] == i;
      assert t.queues[l][if l == q && j > k then j - 1 else j] == i;
    }
  }

  lemma RemovedPair(procs: seq<Proc>, queue: seq<int>, k: int, j: int, l: int)
    requires 0 <= k < |queue| && 0 <= j < l < |queue| - 1 && forall i | 0 <= i < |queue| :: 0 <= queue[i] < |procs|
    requires forall a, b | 0 <= a < b < |queue| :: PairOk(procs[queue[a]], procs[queue[b]])
    ensures var r := Remove(queue, k);
            |r| == |queue| - 1 && 0 <= r[j] < |procs| && 0 <= r[l] < |procs| && PairOk(procs[r[j]], procs[r[l]])
  {
    RemoveAt(queue, k, j);
    RemoveAt(queue, k, l);
    assert PairOk(procs[queue[if j >= k then j + 1 else j]], procs[queue[if l >= k then l + 1 else l]]);
  }

  lemma RemoveAt(queue: seq<int>, k: int, j: int)
    requires 0 <= k < |queue| && 0 <= j < |queue| - 1
    ensures |Remove(queue, k)| == |queue| - 1 && Remove(queue, k)[j] == queue[if j >= k then j + 1 else j]
  {
  }

  lemma RemoveOrder(s: State, q: int, k: int)
    requires Shape(s) && OrderOk(s) && 0 <= q < LEVELS && 0 <= k < |s.queues[q]|
    ensures OrderOk(s.(queues := s.queues[q := Remove(s.queues[q], k)]))
  {
    var t := s.(queues := s.queues[q := Remove(s.queues[q], k)]);
    forall r, j, l | 0 <= r < LEVELS && 0 <= j < l < |t.queues[r]|
      ensures PairOk(t.procs[t.queues[r][j]], t.procs[t.queues[r][l]])
    {
      if r == q {
        RemovedPair(s.procs, s.queues[q], k, j, l);
      } else {
        assert t.queues[r] == s.queues[r];
      }
    }
  }

  /** The order speaks of queued processes only. */
  lemma OrderFrame(s: State, t: State, p: int)
    requires Shape(s) && OrderOk(s) && Shape(t) && QueuesOk(t) && 0 <= p < NPROC
    requires t.queues == s.queues && t.procs[p].state != RUNNABLE
    requires forall i | 0 <= i < NPROC && i != p :: t.procs[i] == s.procs[i]
    ensures OrderOk(t)
  {
    forall r, j, l | 0 <= r < LEVELS && 0 <= j < l < |t.queues[r]|
      ensures PairOk(t.procs[t.queues[r][j]], t.procs[t.queues[r][l]])
    {
      assert PairOk(s.procs[s.queues[r][j]], s.procs[s.queues[r][l]]);
      assert t.queues[r][j] != p && t.queues[r][l] != p;
    }
  }

  /** Leaving RUNNABLE by being taken off the queue. */
  lemma DequeueKeeps(s: State, q: int, k: int, x: Proc)
    requires Inv(s) && 0 <= q < LEVELS && 0 <= k < |s.queues[q]|
    requires x.pid == s.procs[s.queues[q][k]].pid && x.state == RUNNING && ProcOk(x, s.ticks)
    ensures Inv(s.(queues := s.queues[q := Remove(s.queues[q], k)], procs := s.procs[s.queues[q][k] := x]))
  {
    var p := s.queues[q][k];
    var t := s.(queues := s.queues[q := Remove(s.queues[q], k)], procs := s.procs[p := x]);
    RemoveQueues(s, t, q, k);
    RemoveOrder(s, q, k);
    OrderFrame(s.(queues := t.queues), t, p);
    assert s.procs[p].state == RUNNABLE;
    PidsUpdate(s, t, p);
  }

  // ------------------------------------------------------- the scheduler

  /** One promotion: off its queue, to the back of the queue above, wait reset. */
  lemma PromoteKeeps(s: State, i: int, j: int)
    requires Inv(s) && 1 <= i < LEVELS && 0 <= j < |s.queues[i]| && Aged(s, s.queues[i][j], i)
    ensures var p := s.queues[i][j];
            var t := Promote(s, p, i);
            && Inv(t)
            && t == s.(queues := s.queues[i := Remove(s.queues[i], j)][i - 1 := s.queues[i - 1] + [p]],
                       procs := s.procs[p := s.procs[p].(wait := 0, level := i - 1)])
  {
    var p, x := s.queues[i][j], s.procs[s.queues[i][j]];
    assert x.state == RUNNABLE && x.level == i && ProcOk(x, s.ticks);
    var off := x.(state := RUNNING, wait := 0);
    var d := s.(queues := s.queues[i := Remove(s.queues[i], j)], procs := s.procs[p := off]);
    DequeueKeeps(s, i, j, off);
    EnqueueKeeps(d, p, x.(wait := 0), i - 1, NPROC);
    PromoteUnfold(s, i, j, off);
  }

  lemma PromoteUnfold(s: State, i: int, j: int, off: Proc)
    requires Inv(s) && 1 <= i < LEVELS && 0 <= j < |s.queues[i]|
    ensures var p := s.queues[i][j];
            var d := s.(queues := s.queues[i := Remove(s.queues[i], j)], procs := s.procs[p := off]);
            var back := s.procs[p].(wait := 0);
            && Shape(d) && Promote(s, p, i) == PushBack(d.(procs := d.procs[p := back]), p, i - 1)
            && d.procs[p := back.(level := i - 1)] == s.procs[p := back.(level := i - 1)]
  {
    var p, back := s.queues[i][j], s.procs[s.queues[i][j]].(wait := 0);
    FindSelf(s, i, j);
    assert s.procs[p := off][p := back] == s.procs[p := back];
  }

  lemma {:induction false} AgeFromKeeps(s: State, i: int, j: nat)
    requires Inv(s) && 1 <= i < LEVELS
    ensures Inv(AgeFrom(s, i, j))
    decreases |s.queues[i]| - j
  {
    if j < |s.queues[i]| {
      if Aged(s, s.queues[i][j], i) {
        PromoteKeeps(s, i, j);
        AgeFromKeeps(Promote(s, s.queues[i][j], i), i, j + 1);
      } else {
        AgeFromKeeps(s, i, j + 1);
      }
    }
  }

  lemma AgeAllKeeps(s: State)
    requires Inv(s)
    ensures Inv(AgeAll(s))
  {
    AgeFromKeeps(s, 1, 0);
    AgeFromKeeps(AgeFrom(s, 1, 0), 2, 0);
    AgeFromKeeps(AgeFrom(AgeFrom(s, 1, 0), 2, 0), 3, 0);
    AgeFromKeeps(AgeFrom(AgeFrom(AgeFrom(s, 1, 0), 2, 0), 3, 0), 4, 0);
  }

  /** The scheduler takes the front of the first busy queue, finds it RUNNABLE, and
      sets it running; with nothing RUNNABLE it changes nothing. */
  lemma PickKeeps(s: State)
    requires Inv(s)
    ensures var t := Pick(s); var k := FirstBusy(s, 0);
            && Inv(t)
            && (k == LEVELS <==> forall p | 0 <= p < NPROC :: s.procs[p].state != RUNNABLE)
            && (k == LEVELS ==> t == s)
            && (k < LEVELS ==>
                  var p := s.queues[k][0];
                  && s.procs[p].state == RUNNABLE && s.procs[p].level == k
                  && t == s.(queues := s.queues[k := s.queues[k][1..]],
                             procs := s.procs[p := s.procs[p].(slice := 0, state := RUNNING, wait := 0)]))
  {
    var k := FirstBusy(s, 0);
    if k < LEVELS {
      var p := s.queues[k][0];
      var x := s.procs[p];
      assert x.state == RUNNABLE && ProcOk(x, s.ticks);
      FindSelf(s, k, 0);
      assert Remove(s.queues[k], 0) == s.queues[k][1..];
      DequeueKeeps(s, k, 0, x.(slice := 0, state := RUNNING, wait := 0));
    } else {
      forall p | 0 <= p < NPROC ensures s.procs[p].state != RUNNABLE {
        assert forall l | 0 <= l < LEVELS :: s.queues[l] == [];
      }
    }
  }

  // -------------------------------------------------------------- ticks

  lemma AccountOk(x: Proc, now: int)
    requires ProcOk(x, now) && (x.state != UNUSED ==> x.pid > 0)
    ensures ProcOk(Account(x), now + 1) || Overdue(Account(x), now + 1)
    ensures Account(x).state == x.state && Account(x).pid == x.pid && Account(x).level == x.level
    ensures Account(x).killed == x.killed
    ensures x.state == RUNNABLE ==> Account(x).wait == x.wait + if x.killed then 0 else 1
  {
    if x.state == RUNNING && !x.killed {
      var y := x.levelTicks[x.level := x.levelTicks[x.level] + 1];
      assert Total(y) == Total(x.levelTicks) + 1;
    }
  }

  lemma AccountAllKeeps(s: State)
    requires Inv(s)
    ensures InvFrom(AccountAll(s), 0)
  {
    var t := AccountAll(s);
    forall p | 0 <= p < NPROC
      ensures t.procs[p] == Account(s.procs[p])
      ensures ProcOk(t.procs[p], t.ticks) || Overdue(t.procs[p], t.ticks)
      ensures t.procs[p].state == s.procs[p].state && t.procs[p].pid == s.procs[p].pid
      ensures t.procs[p].level == s.procs[p].level && t.procs[p].killed == s.procs[p].killed
      ensures s.procs[p].state == RUNNABLE ==> t.procs[p].wait == s.procs[p].wait + if s.procs[p].killed then 0 else 1
    {
      AccountOk(s.procs[p], s.ticks);
    }
    assert QueuesOk(t);
    forall r, j, l | 0 <= r < LEVELS && 0 <= j < l < |t.queues[r]|
      ensures PairOk(t.procs[t.queues[r][j]], t.procs[t.queues[r][l]])
    {
      assert PairOk(s.procs[s.queues[r][j]], s.procs[s.queues[r][l]]);
      assert s.procs[s.queues[r][j]].state == RUNNABLE && s.procs[s.queues[r][l]].state == RUNNABLE;
    }
  }

  function Demoted(x: Proc): Proc
  {
    x.(state := RUNNABLE, slice := 0, wait := 0, level := if x.level < 4 then x.level + 1 else 4)
  }

  lemma DemotedOk(x: Proc, now: int)
    requires Overdue(x, now)
    ensures ProcOk(Demoted(x), now) && 0 <= Demoted(x).level < LEVELS
  {
  }

  lemma CheckIs(s: State, p: int)
    requires Shape(s) && LevelsOk(s) && 0 <= p < NPROC
    ensures Overdue(s.procs[p], s.ticks) ==>
              0 <= Demoted(s.procs[p]).level < LEVELS &&
              Check(s, p) == PushBack(s.(procs := s.procs[p := Demoted(s.procs[p])]), p, Demoted(s.procs[p]).level)
    ensures ProcOk(s.procs[p], s.ticks) ==> Check(s, p) == s
  {
    var x := s.procs[p];
    if Overdue(x, s.ticks) {
      assert s.procs[p := x.(demote := true)][p := Demoted(x)] == s.procs[p := Demoted(x)];
    }
  }

  /** The timer check demotes a process past its quantum by one level (the last level
      stays) and puts it at the back of that queue; nobody else is touched. */
  lemma CheckKeeps(s: State, p: int)
    requires InvFrom(s, p) && 0 <= p < NPROC
    ensures LevelsOk(s) && InvFrom(Check(s, p), p + 1)
    ensures var x := s.procs[p]; var y := Demoted(x);
            if Overdue(x, s.ticks)
            then 0 <= y.level < LEVELS &&
                 Check(s, p) == s.(procs := s.procs[p := y], queues := s.queues[y.level := s.queues[y.level] + [p]])
            else Check(s, p) == s
  {
    LevelsHold(s, p);
    CheckIs(s, p);
    var x := s.procs[p];
    if Overdue(x, s.ticks) {
      DemotedOk(x, s.ticks);
      EnqueueKeeps(s, p, Demoted(x), Demoted(x).level, p);
    }
  }

  lemma {:induction false} CheckFromKeeps(s: State, p: nat)
    requires InvFrom(s, p) && p <= NPROC
    ensures LevelsOk(s) && Inv(CheckFrom(s, p))
    decreases NPROC - p
  {
    LevelsHold(s, p);
    if p < NPROC {
      CheckKeeps(s, p);
      CheckFromKeeps(Check(s, p), p + 1);
    }
  }

  lemma TickKeeps(s: State)
    requires Inv(s)
    ensures LevelsOk(s) && Inv(Tick(s))
  {
    LevelsHold(s, NPROC);
    AccountAllKeeps(s);
    WakeKeeps(AccountAll(s), TICKS_CHAN, 0, 0);
    CheckFromKeeps(WakeFrom(AccountAll(s), TICKS_CHAN, 0), 0);
  }

  // ------------------------------------------------------- other events

  /** A woken sleeper goes to the back of the queue of its level. */
  lemma WokenIs(s: State, i: int, n: int)
    requires InvFrom(s, n) && 0 <= i < NPROC && s.procs[i].state == SLEEPING
    ensures LevelsOk(s) && InvFrom(Woken(s, i), n)
    ensures var x := s.procs[i].(state := RUNNABLE, slice := 0);
            0 <= x.level < LEVELS
              && Woken(s, i) == s.(queues := s.queues[x.level := s.queues[x.level] + [i]], procs := s.procs[i := x])
  {
    LevelsHold(s, n);
    var x := s.procs[i].(state := RUNNABLE, slice := 0);
    assert ProcOk(s.procs[i], s.ticks);
    EnqueueKeeps(s, i, x, x.level, n);
  }

  lemma {:induction false} WakeKeeps(s: State, chan: int, i: nat, n: int)
    requires InvFrom(s, n) && i <= NPROC
    ensures LevelsOk(s) && InvFrom(WakeFrom(s, chan, i), n)
    decreases NPROC - i
  {
    LevelsHold(s, n);
    if i < NPROC {
      if s.procs[i].state == SLEEPING && s.procs[i].chan == chan {
        WokenIs(s, i, n);
        WakeKeeps(Woken(s, i), chan, i + 1, n);
      } else {
        WakeKeeps(s, chan, i + 1, n);
      }
    }
  }

  /** A change to one process that leaves its queueing alone. */
  lemma FlagKeeps(s: State, p: int)
    requires Inv(s) && 0 <= p < NPROC
    ensures Inv(s.(procs := s.procs[p := s.procs[p].(killed := true)]))
  {
    var t := s.(procs := s.procs[p := s.procs[p].(killed := true)]);
    assert ProcOk(t.procs[p], t.ticks);
    forall r, j, l | 0 <= r < LEVELS && 0 <= j < l < |t.queues[r]|
      ensures PairOk(t.procs[t.queues[r][j]], t.procs[t.queues[r][l]])
    {
      assert PairOk(s.procs[s.queues[r][j]], s.procs[s.queues[r][l]]);
    }
  }

  lemma KillKeeps(s: State, pid: int)
    requires Inv(s)
    ensures LevelsOk(s) && Inv(Kill(s, pid))
  {
    LevelsHold(s, NPROC);
    var p := SlotOf(s.procs, pid, 0);
    if p < NPROC {
      var x := s.procs[p].(killed := true);
      var k := s.(procs := s.procs[p := x]);
      FlagKeeps(s, p);
      if x.state == SLEEPING {
        var y := x.(state := RUNNABLE);
        assert ProcOk(x, s.ticks);
        EnqueueKeeps(k, p, y, y.level, NPROC);
        KillOrder(k, p);
      }
    }
  }

  /** Pushing first and turning RUNNABLE after is the same as the other way round. */
  lemma KillOrder(k: State, p: int)
    requires Inv(k) && 0 <= p < NPROC && k.procs[p].state == SLEEPING && 0 <= k.procs[p].level < LEVELS
    ensures var y := k.procs[p].(state := RUNNABLE);
            var t := PushBack(k, p, y.level);
            t.(procs := t.procs[p := t.procs[p].(state := RUNNABLE)])
            == PushBack(k.(procs := k.procs[p := y]), p, y.level)
  {
    var y := k.procs[p].(state := RUNNABLE);
    var queue := k.queues[y.level];
    var u := k.(procs := k.procs[p := y]);
    forall j | 0 <= j < |queue| ensures k.procs[queue[j]].pid != y.pid && u.procs[queue[j]].pid != y.pid {
      assert k.procs[queue[j]].state == RUNNABLE;
    }
    assert FindPid(k.procs, queue, y.pid, 0) == |queue| == FindPid(u.procs, queue, y.pid, 0);
  }

  lemma AllocKeeps(s: State)
    requires Inv(s) && LevelsOk(s)
    ensures Inv(Next(s, Alloc))
  {
    var p := FirstUnused(s.procs, 0);
    if p < NPROC {
      var t := Next(s, Alloc);
      assert ProcOk(s.procs[p], s.ticks);
      OrderFrame(s, t, p);
    }
  }

  lemma ReapKeeps(s: State, p: int)
    requires Inv(s) && LevelsOk(s) && Enabled(s, Reap(p))
    ensures Inv(Next(s, Reap(p)))
  {
    var t := Next(s, Reap(p));
    OrderFrame(s, t, p);
  }

  lemma StepKeeps(s: State, e: Event)
    requires Inv(s) && Enabled(s, e)
    ensures LevelsOk(s) && Inv(Next(s, e))
  {
    LevelsHold(s, NPROC);
    match e
    case Alloc => AllocKeeps(s);
    case Init(p) => UpdateKeeps(s, p, Initialised(s.procs[p], s.ticks));
    case Abort(p) => UpdateKeeps(s, p, s.procs[p].(state := UNUSED));
    case Start(p) => EnqueueKeeps(s, p, s.procs[p].(state := RUNNABLE), 0, NPROC);
    case Schedule => AgeAllKeeps(s); PickKeeps(AgeAll(s));
    case Sleep(p, chan) => UpdateKeeps(s, p, s.procs[p].(state := SLEEPING, chan := chan));
    case Wakeup(chan) => WakeKeeps(s, chan, 0, NPROC);
    case KillPid(pid) => KillKeeps(s, pid);
    case Exit(p) => UpdateKeeps(s, p, s.procs[p].(state := ZOMBIE, ended := s.ticks));
    case Reap(p) => ReapKeeps(s, p);
    case TimerTick => TickKeeps(s);
  }
}
