/** The MLFQ code of proc.c in its own form: the queue_ptr and q_latest_idx arrays and
    the loops over them, proved against the state machine's functions. */
module MlfqKernel {
  import opened Procs
  import opened Mlfq
  import opened MlfqInv
  import opened MlfqRuns
  import opened MlfqTicks
  import opened MlfqQueue

  ghost predicate Separate(qs: seq<Queue>)
  {
    forall q, r | 0 <= q < r < |qs| :: qs[q] != qs[r] && qs[q].slots != qs[r].slots
  }

  method NewQueues() returns (qs: seq<Queue>)
    ensures |qs| == LEVELS && Separate(qs)
    ensures forall q | 0 <= q < LEVELS :: qs[q].Valid() && qs[q].Contents() == [] && fresh(qs[q]) && fresh(qs[q].slots)
  {
    qs := [];
    while |qs| < LEVELS
      invariant |qs| <= LEVELS && Separate(qs)
      invariant forall q | 0 <= q < |qs| ::
                  qs[q].Valid() && qs[q].Contents() == [] && fresh(qs[q]) && fresh(qs[q].slots)
    {
      var queue := new Queue();
      qs := qs + [queue];
    }
  }

  class Kernel {
    var procs: seq<Proc>        // ptable
    const queues: seq<Queue>
    var nextpid: int
    var ticks: int
    ghost var view: seq<seq<int>>   // the contents of the queues

    /** The machine state these objects stand for. */
    ghost function Abs(): (s: State)
      reads this
    {
      State(procs, view, nextpid, ticks)
    }

    ghost predicate Valid()
      reads this, queues, set q | q in queues :: q.slots
    {
      && Shape(Abs()) && |queues| == LEVELS
      && Separate(queues)
      && (forall q | 0 <= q < LEVELS :: queues[q].Valid() && queues[q].Contents() == view[q])
    }

    /** The tables at boot. */
    constructor ()
      ensures Valid() && Boot(Abs())
      ensures forall q | q in queues :: fresh(q) && fresh(q.slots)
    {
      var qs := NewQueues();
      procs := seq(NPROC, _ => Proc(UNUSED, 0, 0, false, false, 0, 0, 0, false, 0, 0, [0, 0, 0, 0, 0], 0, 0));
      queues := qs;
      nextpid, ticks, view := 1, 0, [[], [], [], [], []];
    }

    method PushBack(p: int, q: int)
      requires Valid() && 0 <= p < NPROC && 0 <= q < LEVELS && |view[q]| < QUEUE_SLOTS
      modifies this`procs, this`view, queues[q], queues[q].slots
      ensures Valid() && Abs() == Mlfq.PushBack(old(Abs()), p, q)
    {
      var r := queues[q].PushBackProcess(procs, p);
      if r != 1 {
        return;
      }
      procs := procs[p := procs[p].(level := q)];
      view := view[q := view[q] + [p]];
    }

    method Delete(p: int, q: int)
      requires Valid() && 0 <= p < NPROC && 0 <= q < LEVELS
      modifies this`view, queues[q], queues[q].slots
      ensures Valid() && Abs() == Mlfq.Delete(old(Abs()), p, q)
    {
      var r := queues[q].DeleteProcess(procs, p);
      view := view[q := queues[q].Contents()];
    }

    /** The aging loops of scheduler(). */
    method Age()
      requires Valid() && Inv(Abs())
      modifies this`procs, this`view, queues, set q | q in queues :: q.slots
      ensures Valid() && Abs() == AgeAll(old(Abs()))
    {
      AgeLevelsIs(Abs());
      ghost var goal := AgeAll(Abs());
      var i := 1;
      while i < LEVELS
        invariant 1 <= i <= LEVELS && Valid() && Inv(Abs())
        invariant AgeLevels(Abs(), i) == goal
      {
        AgeLevelsStep(Abs(), i);
        AgeLevel(i);
        i := i + 1;
      }
    }

    /** delete_process, the reset of the wait, and push_back_process one level up. */
    method PromoteOne(p: int, i: int)
      requires Valid() && 0 <= p < NPROC && 1 <= i < LEVELS && |view[i - 1]| < QUEUE_SLOTS
      modifies this`procs, this`view, queues, set q | q in queues :: q.slots
      ensures Valid() && Abs() == Promote(old(Abs()), p, i)
    {
      Delete(p, i);
      procs := procs[p := procs[p].(wait := 0)];
      PushBack(p, i - 1);
    }

    method AgeLevel(i: int)
      requires Valid() && Inv(Abs()) && 1 <= i < LEVELS
      modifies this`procs, this`view, queues, set q | q in queues :: q.slots
      ensures Valid() && Inv(Abs()) && Abs() == AgeFrom(old(Abs()), i, 0)
    {
      var j := 0;
      while j <= queues[i].latest
        invariant 0 <= j && Valid() && Inv(Abs())
        invariant AgeFrom(Abs(), i, j) == AgeFrom(old(Abs()), i, 0)
        decreases queues[i].latest - j
      {
        AgeOne(i, j);
        j := j + 1;
      }
      AgeFromDone(Abs(), i, j);
    }

    /** One round of the inner aging loop. */
    method AgeOne(i: int, j: int)
      requires Valid() && Inv(Abs()) && 1 <= i < LEVELS && 0 <= j < |view[i]|
      modifies this`procs, this`view, queues, set q | q in queues :: q.slots
      ensures Valid() && Inv(Abs()) && queues[i].latest <= old(queues[i].latest)
      ensures AgeFrom(Abs(), i, j + 1) == AgeFrom(old(Abs()), i, j)
    {
      var p := queues[i].slots[j];
      assert p == view[i][j];
      if procs[p].wait > Patience(i) {
        PromoteKeeps(Abs(), i, j);
        QueueFits(Abs(), i - 1);
        PromoteOne(p, i);
      }
    }

    /** The search for the first queue in use. */
    method FindBusy() returns (i: int)
      requires Valid()
      ensures i == FirstBusy(Abs(), 0)
    {
      i := 0;
      while i < LEVELS && queues[i].latest < 0
        invariant 0 <= i <= LEVELS
        invariant forall l | 0 <= l < i :: view[l] == []
      {
        assert queues[i].Contents() == [];
        i := i + 1;
      }
      assert i < LEVELS ==> |queues[i].Contents()| > 0;
    }

    /** The rest of scheduler(): choose, take off the queue, set running. */
    method Choose() returns (chosen: int)
      requires Valid()
      modifies this`procs, this`view, queues, set q | q in queues :: q.slots
      ensures Valid() && Abs() == Pick(old(Abs()))
      ensures chosen == if FirstBusy(old(Abs()), 0) == LEVELS then -1 else old(view)[FirstBusy(old(Abs()), 0)][0]
    {
      var i := FindBusy();
      if i == LEVELS {
        return -1;
      }
      chosen := queues[i].slots[0];
      assert chosen == view[i][0];
      Delete(chosen, i);
      Start(chosen);
    }

    /** What the scheduler does to the process it has taken off its queue. */
    method Start(p: int)
      requires Valid() && 0 <= p < NPROC
      modifies this`procs
      ensures Valid() && Abs() == old(Abs()).(procs := procs)
      ensures procs == if old(procs)[p].state == RUNNABLE
                       then old(procs)[p := old(procs)[p].(slice := 0, state := RUNNING, wait := 0)] else old(procs)
    {
      if procs[p].state == RUNNABLE {
        procs := procs[p := procs[p].(slice := 0, state := RUNNING, wait := 0)];
      }
    }

    /** update_process_stats, with the tick that trap() counts before it. */
    method UpdateProcessStats()
      requires Valid()
      modifies this`procs, this`ticks
      ensures Valid() && Abs() == AccountAll(old(Abs()))
      ensures ticks == old(ticks) + 1 && nextpid == old(nextpid) && view == old(view)
      ensures forall p | 0 <= p < NPROC :: Accounted(old(procs)[p], procs[p])
    {
      ticks := ticks + 1;
      var i := 0;
      while i < NPROC
        invariant 0 <= i <= NPROC == |procs| && ticks == old(ticks) + 1
        invariant forall k | 0 <= k < i :: procs[k] == Account(old(procs)[k])
        invariant forall k | i <= k < NPROC :: procs[k] == old(procs)[k]
      {
        var x := procs[i];
        if !x.killed && x.pid != 0 {
          if x.state == RUNNING {
            x := x.(run := x.run + 1, slice := x.slice + 1);
            if 0 <= x.level < |x.levelTicks| {
              x := x.(levelTicks := x.levelTicks[x.level := x.levelTicks[x.level] + 1]);
            }
          } else if x.state == SLEEPING {
            x := x.(sleep := x.sleep + 1);
          } else if x.state == RUNNABLE {
            x := x.(wait := x.wait + 1);
          }
        }
        procs := procs[i := x];
        i := i + 1;
      }
      assert procs == AccountAll(old(Abs())).procs;
      forall p | 0 <= p < NPROC ensures Accounted(old(procs)[p], procs[p]) {
        AccountIs(old(procs)[p]);
      }
    }

    /** wakeup1; the timer calls it before the quantum checks, n being then 0. */
    method Wakeup1(chan: int, ghost n: int)
      requires Valid() && InvFrom(Abs(), n)
      modifies this`procs, this`view, queues, set q | q in queues :: q.slots
      ensures LevelsOk(old(Abs())) && Valid() && InvFrom(Abs(), n) && Abs() == WakeFrom(old(Abs()), chan, 0)
      ensures forall p | 0 <= p < NPROC ::
                procs[p] == if SleepsOn(old(procs)[p], chan) then old(procs)[p].(state := RUNNABLE, slice := 0)
                            else old(procs)[p]
      ensures forall q | 0 <= q < LEVELS :: view[q] == old(view)[q] + Sleepers(old(procs), chan, q, 0)
    {
      WakeupWakes(Abs(), chan, n);
      LevelsHold(Abs(), n);
      ghost var end := WakeFrom(Abs(), chan, 0);
      var i := 0;
      while i < NPROC
        invariant 0 <= i <= NPROC && Valid() && InvFrom(Abs(), n) && LevelsOk(Abs())
        invariant WakeFrom(Abs(), chan, i) == end
      {
        WakeSlot(chan, i, n);
        i := i + 1;
      }
    }

    /** The timer's quantum check for the process in slot p: setup_demotion, yield, and the
        scheduler's lower half. */
    method CheckQuantum(p: int)
      requires Valid() && InvFrom(Abs(), p) && LevelsOk(Abs()) && 0 <= p < NPROC
      modifies this`procs, this`view, queues, set q | q in queues :: q.slots
      ensures Valid() && InvFrom(Abs(), p + 1)
      ensures if Late(old(procs)[p]) then Demotes(old(Abs()), Abs(), p) else Abs() == old(Abs())
    {
      ChecksOne(Abs(), p);
      QueuesFit(Abs());
      Preempt(p);
    }

    method Preempt(p: int)
      requires Valid() && LevelsOk(Abs()) && 0 <= p < NPROC && forall q | 0 <= q < LEVELS :: |view[q]| < QUEUE_SLOTS
      modifies this`procs, this`view, queues, set q | q in queues :: q.slots
      ensures Valid() && Abs() == Check(old(Abs()), p)
    {
      if procs[p].state == RUNNING && procs[p].slice >= Limit(procs[p].level) + 1 {
        procs := procs[p := procs[p].(demote := true)];
        Yield(p);
      }
    }

    method Yield(p: int)
      requires Valid() && 0 <= p < NPROC && 0 <= procs[p].level < LEVELS
      requires forall q | 0 <= q < LEVELS :: |view[q]| < QUEUE_SLOTS
      modifies this`procs, this`view, queues, set q | q in queues :: q.slots
      ensures Valid() && Abs() == Mlfq.Yield(old(Abs()), p)
    {
      var x := procs[p].(state := RUNNABLE);
      if x.demote {
        x := x.(demote := false, slice := 0, wait := 0);
        if x.level < 4 {
          x := x.(level := x.level + 1);
        }
      }
      procs := procs[p := x];
      PushBack(p, x.level);
    }

    /** The slot of the first process with the pid. */
    method FindProc(pid: int) returns (p: int)
      requires Valid()
      ensures 0 <= p <= NPROC && (forall i | 0 <= i < p :: procs[i].pid != pid) && (p < NPROC ==> procs[p].pid == pid)
    {
      p := 0;
      while p < NPROC && procs[p].pid != pid
        invariant 0 <= p <= NPROC && forall i | 0 <= i < p :: procs[i].pid != pid
      {
        p := p + 1;
      }
    }

    /** kill: marks the first process with the pid, and puts a sleeper back on its queue. */
    method Kill(pid: int) returns (r: int, ghost at: int)
      requires Valid() && Inv(Abs())
      modifies this`procs, this`view, queues, set q | q in queues :: q.slots
      ensures Valid() && Inv(Abs())
      ensures 0 <= at <= NPROC && (forall i | 0 <= i < at :: old(procs)[i].pid != pid)
      ensures r == if at < NPROC then 0 else -1
      ensures if at < NPROC then old(procs)[at].pid == pid && KillsAt(old(Abs()), Abs(), at) else Abs() == old(Abs())
    {
      var p := FindProc(pid);
      at := p;
      KillEffect(Abs(), pid, p);
      KillKeeps(Abs(), pid);
      if p == NPROC {
        return -1, at;
      }
      QueuesFit(Abs());
      r := 0;
      MarkKilled(p, pid);
    }

    method MarkKilled(p: int, ghost pid: int)
      requires Valid() && LevelsOk(Abs()) && 0 <= p < NPROC && SlotOf(procs, pid, 0) == p
      requires forall q | 0 <= q < LEVELS :: |view[q]| < QUEUE_SLOTS
      modifies this`procs, this`view, queues, set q | q in queues :: q.slots
      ensures Valid() && Abs() == Mlfq.Kill(old(Abs()), pid)
    {
      procs := procs[p := procs[p].(killed := true)];
      if procs[p].state == SLEEPING {
        Requeue(p);
      }
    }

    method Requeue(p: int)
      requires Valid() && 0 <= p < NPROC && 0 <= procs[p].level < LEVELS && |view[procs[p].level]| < QUEUE_SLOTS
      modifies this`procs, this`view, queues, set q | q in queues :: q.slots
      ensures Valid()
      ensures var t := Mlfq.PushBack(old(Abs()), p, old(procs)[p].level);
              Abs() == t.(procs := t.procs[p := t.procs[p].(state := RUNNABLE)])
    {
      PushBack(p, procs[p].level);
      procs := procs[p := procs[p].(state := RUNNABLE)];
    }

    method WakeSlot(chan: int, i: int, ghost n: int)
      requires Valid() && InvFrom(Abs(), n) && LevelsOk(Abs()) && 0 <= i < NPROC
      modifies this`procs, this`view, queues, set q | q in queues :: q.slots
      ensures Valid() && InvFrom(Abs(), n) && LevelsOk(Abs())
      ensures WakeFrom(Abs(), chan, i + 1) == WakeFrom(old(Abs()), chan, i)
    {
      if procs[i].state == SLEEPING && procs[i].chan == chan {
        WakeOne(i, n);
      }
    }

    method WakeOne(i: int, ghost n: int)
      requires Valid() && InvFrom(Abs(), n) && LevelsOk(Abs()) && 0 <= i < NPROC && procs[i].state == SLEEPING
      modifies this`procs, this`view, queues, set q | q in queues :: q.slots
      ensures Valid() && InvFrom(Abs(), n) && Abs() == Woken(old(Abs()), i)
    {
      ghost var s := Abs();
      QueueFits(s, procs[i].level);
      WokenIs(s, i, n);
      procs := procs[i := procs[i].(state := RUNNABLE, slice := 0)];
      PushBack(i, procs[i].level);
    }
  }

  lemma WakeupWakes(s: State, chan: int, n: int)
    requires InvFrom(s, n)
    ensures LevelsOk(s)
    ensures forall p | 0 <= p < NPROC ::
              WakeFrom(s, chan, 0).procs[p] == if SleepsOn(s.procs[p], chan)
                                               then s.procs[p].(state := RUNNABLE, slice := 0) else s.procs[p]
    ensures forall q | 0 <= q < LEVELS ::
              WakeFrom(s, chan, 0).queues[q] == s.queues[q] + Sleepers(s.procs, chan, q, 0)
  {
    LevelsHold(s, n);
    forall p | 0 <= p < NPROC
      ensures WokenProc(s.procs[p], WakeFrom(s, chan, 0).procs[p], SleepsOn(s.procs[p], chan))
    {
      WakesExactly(s, chan, n, p, 0);
    }
    forall q | 0 <= q < LEVELS
      ensures WakeFrom(s, chan, 0).queues[q] == s.queues[q] + Sleepers(s.procs, chan, q, 0)
    {
      WakesExactly(s, chan, n, 0, q);
    }
  }

  lemma QueueFits(s: State, q: int)
    requires Shape(s) && QueuesOk(s) && 0 <= q < LEVELS
    ensures |s.queues[q]| <= NPROC < QUEUE_SLOTS
  {
    Pigeonhole(s.queues[q], NPROC);
  }

  lemma QueuesFit(s: State)
    requires Shape(s) && QueuesOk(s)
    ensures forall q | 0 <= q < LEVELS :: |s.queues[q]| < QUEUE_SLOTS
  {
    forall q | 0 <= q < LEVELS ensures |s.queues[q]| < QUEUE_SLOTS {
      QueueFits(s, q);
    }
  }

  /** The four passes one after the other. */
  function AgeLevels(s: State, i: int): (t: State)
    requires Shape(s) && 1 <= i <= LEVELS
    ensures Shape(t)
    decreases LEVELS - i
  {
    if i == LEVELS then s else AgeLevels(AgeFrom(s, i, 0), i + 1)
  }

  lemma AgeFromDone(s: State, i: int, j: nat)
    requires Shape(s) && 1 <= i < LEVELS && j >= |s.queues[i]|
    ensures AgeFrom(s, i, j) == s
  {
  }

  lemma AgeLevelsStep(s: State, i: int)
    requires Shape(s) && 1 <= i < LEVELS
    ensures AgeLevels(s, i) == AgeLevels(AgeFrom(s, i, 0), i + 1)
  {
  }

  lemma AgeLevelsIs(s: State)
    requires Shape(s)
    ensures AgeLevels(s, 1) == AgeAll(s)
  {
    var a := AgeFrom(s, 1, 0);
    var b := AgeFrom(a, 2, 0);
    var c := AgeFrom(b, 3, 0);
    assert AgeLevels(s, 1) == AgeLevels(a, 2) == AgeLevels(b, 3) == AgeLevels(c, 4) == AgeLevels(AgeAll(s), 5);
  }
}
