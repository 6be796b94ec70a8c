/** fork, exit, wait and kill of proc.c: who waits for whom, and who is reaped. */
module ProcLife {
  import opened Procs

  /** A sleep channel: the address of a process (only wait sleeps on one), or anything
      else. */
  datatype Chan = Nothing | OnProc(i: int) | Other(x: int)

  /** parent is a slot, or -1 for none.  forking is the slot a process is setting up
      between allocproc and the end of fork, or -1. */
  datatype Proc = Proc(state: PState, pid: int, parent: int, chan: Chan, killed: bool, forking: int)

  type Table = t: seq<Proc> | |t| == NPROC witness seq(NPROC, _ => Proc(UNUSED, 0, -1, Nothing, false, -1))

  /** init is the slot of initproc; reaped lists the pids that wait and waitx returned. */
  datatype State = State(t: Table, init: int, nextpid: int, reaped: seq<int>)

  // ------------------------------------------------------- the operations

  function Woken(x: Proc, chan: Chan): Proc
  {
    if x.state == SLEEPING && x.chan == chan then x.(state := RUNNABLE) else x
  }

  /** wakeup1 */
  function Wakeup(t: Table, chan: Chan): (u: Table)
    ensures forall i | 0 <= i < NPROC :: u[i] == Woken(t[i], chan)
  {
    seq(NPROC, i requires 0 <= i < NPROC => Woken(t[i], chan))
  }

  function Reparent(t: Table, p: int, init: int): (u: Table)
    ensures forall i | 0 <= i < NPROC :: u[i] == if t[i].parent == p then t[i].(parent := init) else t[i]
  {
    seq(NPROC, i requires 0 <= i < NPROC => if t[i].parent == p then t[i].(parent := init) else t[i])
  }

  predicate HasZombie(t: Table, p: int)
  {
    exists i | 0 <= i < NPROC :: t[i].parent == p && t[i].state == ZOMBIE
  }

  predicate HasKids(t: Table, p: int)
  {
    exists i | 0 <= i < NPROC :: t[i].parent == p
  }

  /** exit, from the acquire of ptable.lock on. */
  function Exit(t: Table, p: int, init: int): (u: Table)
    requires 0 <= p < NPROC
  {
    var w := Wakeup(t, OnProc(t[p].parent));
    var r := Reparent(w, p, init);
    var v := if HasZombie(w, p) then Wakeup(r, OnProc(init)) else r;
    v[p := v[p].(state := ZOMBIE)]
  }

  /** The first zombie child of p from slot i on, or NPROC. */
  function ZombieFrom(t: Table, p: int, i: nat): (k: nat)
    requires i <= NPROC
    ensures i <= k <= NPROC
    ensures k < NPROC ==> t[k].parent == p && t[k].state == ZOMBIE
    ensures forall j | i <= j < k :: !(t[j].parent == p && t[j].state == ZOMBIE)
    decreases NPROC - i
  {
    if i == NPROC || (t[i].parent == p && t[i].state == ZOMBIE) then i else ZombieFrom(t, p, i + 1)
  }

  function Freed(x: Proc): Proc
  {
    x.(pid := 0, parent := -1, killed := false, state := UNUSED)
  }

  /** One pass of the loop of wait or waitx: reap, give up, or sleep. */
  function Wait(s: State, p: int): State
    requires 0 <= p < NPROC
  {
    var k := ZombieFrom(s.t, p, 0);
    if k < NPROC then s.(t := s.t[k := Freed(s.t[k])], reaped := s.reaped + [s.t[k].pid])
    else if !HasKids(s.t, p) || s.t[p].killed then s
    else s.(t := s.t[p := s.t[p].(state := SLEEPING, chan := OnProc(p))])
  }

  function FirstUnused(t: Table, i: nat): (k: nat)
    requires i <= NPROC
    ensures i <= k <= NPROC && (k < NPROC ==> t[k].state == UNUSED)
    decreases NPROC - i
  {
    if i == NPROC || t[i].state == UNUSED then i else FirstUnused(t, i + 1)
  }

  function SlotOf(t: Table, pid: int, i: nat): (k: nat)
    requires i <= NPROC
    ensures i <= k <= NPROC && (k < NPROC ==> t[k].pid == pid)
    decreases NPROC - i
  {
    if i == NPROC || t[i].pid == pid then i else SlotOf(t, pid, i + 1)
  }

  function Kill(t: Table, pid: int): Table
  {
    var k := SlotOf(t, pid, 0);
    if k == NPROC then t
    else t[k := t[k].(killed := true, state := if t[k].state == SLEEPING then RUNNABLE else t[k].state)]
  }

  // ---------------------------------------------------------- the machine

  datatype Event =
    | ForkAlloc(p: nat)      // allocproc inside fork
    | ForkFail(p: nat)       // kalloc or copyuvm failed
    | ForkParent(p: nat)     // np->parent = curproc
    | ForkDone(p: nat)       // np->state = RUNNABLE
    | Dispatch(p: nat)
    | Yield(p: nat)
    | SleepOn(p: nat, x: int)
    | WakeupOn(x: int)
    | KillPid(pid: int)
    | ExitProc(p: nat)
    | WaitProc(p: nat)

  /** The current process of a CPU acts; one inside fork only finishes the fork. */
  predicate Acts(s: State, p: nat)
  {
    p < NPROC && s.t[p].state == RUNNING && s.t[p].forking == -1
  }

  predicate InFork(s: State, p: nat)
  {
    p < NPROC && s.t[p].state == RUNNING && 0 <= s.t[p].forking < NPROC
  }

  predicate Enabled(s: State, e: Event)
  {
    match e
    case ForkAlloc(p) => Acts(s, p)
    case ForkFail(p) => InFork(s, p) && s.t[s.t[p].forking].parent == -1
    case ForkParent(p) => InFork(s, p) && s.t[s.t[p].forking].parent == -1
    case ForkDone(p) => InFork(s, p) && s.t[s.t[p].forking].parent == p
    case Dispatch(p) => p < NPROC && s.t[p].state == RUNNABLE
    case Yield(p) => p < NPROC && s.t[p].state == RUNNING
    case SleepOn(p, _) => Acts(s, p)
    case WakeupOn(_) => true
    case KillPid(_) => true
    case ExitProc(p) => Acts(s, p) && p != s.init
    case WaitProc(p) => Acts(s, p)
  }

  function Next(s: State, e: Event): State
    requires Enabled(s, e)
  {
    match e
    case ForkAlloc(p) =>
      var k := FirstUnused(s.t, 0);
      if k == NPROC then s
      else s.(t := s.t[k := s.t[k].(state := EMBRYO, pid := s.nextpid)][p := s.t[p].(forking := k)],
              nextpid := s.nextpid + 1)
    case ForkFail(p) =>
      var k := s.t[p].forking;
      var u := s.t[k := s.t[k].(state := UNUSED)];
      s.(t := u[p := u[p].(forking := -1)])
    case ForkParent(p) =>
      var k := s.t[p].forking;
      s.(t := s.t[k := s.t[k].(parent := p)])
    case ForkDone(p) =>
      var k := s.t[p].forking;
      var u := s.t[k := s.t[k].(state := RUNNABLE)];
      s.(t := u[p := u[p].(forking := -1)])
    case Dispatch(p) => s.(t := s.t[p := s.t[p].(state := RUNNING)])
    case Yield(p) => s.(t := s.t[p := s.t[p].(state := RUNNABLE)])
    case SleepOn(p, x) => s.(t := s.t[p := s.t[p].(state := SLEEPING, chan := Other(x))])
    case WakeupOn(x) => s.(t := Wakeup(s.t, Other(x)))
    case KillPid(pid) => s.(t := Kill(s.t, pid))
    case ExitProc(p) => s.(t := Exit(s.t, p, s.init))
    case WaitProc(p) => Wait(s, p)
  }

  // ---------------------------------------------------------- invariant

  /** In use and able to run. */
  predicate Live(x: Proc)
  {
    x.state == SLEEPING || x.state == RUNNABLE || x.state == RUNNING
  }

  /** Parents are live, and only processes in use have one. */
  predicate ParentOk(s: State, i: nat)
    requires i < NPROC
  {
    var x := s.t[i];
    && -1 <= x.parent < NPROC && x.parent != i
    && (x.parent != -1 ==> x.state != UNUSED && Live(s.t[x.parent]))
    && (i != s.init && (Live(x) || x.state == ZOMBIE) ==> x.parent != -1)
  }

  /** A process asleep in wait has a child, and none that it could reap. */
  predicate SleeperOk(s: State, i: nat)
    requires i < NPROC
  {
    s.t[i].state == SLEEPING && s.t[i].chan.OnProc? ==>
      s.t[i].chan.i == i && HasKids(s.t, i) && !HasZombie(s.t, i)
  }

  /** An EMBRYO with a parent is in that parent's hands, which is inside fork. */
  predicate ForkOk(s: State, i: nat)
    requires i < NPROC
  {
    var x := s.t[i];
    && (x.forking != -1 ==>
          && 0 <= x.forking < NPROC && (x.state == RUNNING || x.state == RUNNABLE)
          && s.t[x.forking].state == EMBRYO
          && (s.t[x.forking].parent == -1 || s.t[x.forking].parent == i))
    && (x.state == EMBRYO && 0 <= x.parent < NPROC ==> s.t[x.parent].forking == i)
  }

  predicate SlotOk(s: State, i: nat)
    requires i < NPROC
  {
    && 0 <= s.t[i].pid < s.nextpid && (s.t[i].state != UNUSED ==> s.t[i].pid > 0)
    && ParentOk(s, i) && SleeperOk(s, i) && ForkOk(s, i)
  }

  predicate DistinctOk(s: State)
  {
    && (forall i, j | 0 <= i < j < NPROC :: s.t[i].pid == s.t[j].pid ==> s.t[i].pid == 0)
    && (forall i, j | 0 <= i < j < NPROC :: s.t[i].forking == s.t[j].forking ==> s.t[i].forking == -1)
  }

  predicate ReapedOk(s: State)
  {
    && (forall k | 0 <= k < |s.reaped| :: 0 < s.reaped[k] < s.nextpid)
    && (forall k, l | 0 <= k < l < |s.reaped| :: s.reaped[k] != s.reaped[l])
    && (forall k, i | 0 <= k < |s.reaped| && 0 <= i < NPROC :: s.t[i].pid != s.reaped[k])
  }

  predicate Inv(s: State)
  {
    && 1 <= s.nextpid
    && 0 <= s.init < NPROC && Live(s.t[s.init]) && s.t[s.init].parent == -1
    && (forall i | 0 <= i < NPROC :: SlotOk(s, i))
    && DistinctOk(s) && ReapedOk(s)
  }

  // ------------------------------------------------------- preservation

  /** Who has children, and zombies among them, depends on parents and deaths only. */
  lemma KidsFrame(t: Table, u: Table, p: int)
    requires forall i | 0 <= i < NPROC :: u[i].parent == t[i].parent && (u[i].state == ZOMBIE <==> t[i].state == ZOMBIE)
    ensures HasKids(u, p) == HasKids(t, p) && HasZombie(u, p) == HasZombie(t, p)
  {
    if HasZombie(t, p) {
      var i :| 0 <= i < NPROC && t[i].parent == p && t[i].state == ZOMBIE;
      assert u[i].parent == p && u[i].state == ZOMBIE;
    }
    if HasKids(t, p) {
      var i :| 0 <= i < NPROC && t[i].parent == p;
      assert u[i].parent == p;
    }
    if HasZombie(u, p) {
      var i :| 0 <= i < NPROC && u[i].parent == p && u[i].state == ZOMBIE;
      assert t[i].parent == p && t[i].state == ZOMBIE;
    }
    if HasKids(u, p) {
      var i :| 0 <= i < NPROC && u[i].parent == p;
      assert t[i].parent == p;
    }
  }

  /** Changes of run state, channel and killed flag that leave the dead dead, the
      unused unused and the sleepers' reasons intact. */
  predicate Harmless(t: Table, u: Table)
  {
    forall i | 0 <= i < NPROC ::
      && u[i] == t[i].(state := u[i].state, chan := u[i].chan, killed := u[i].killed)
      && (u[i].state != t[i].state ==> Live(t[i]) && Live(u[i]))
      && (u[i].state == SLEEPING && t[i].state != SLEEPING ==> u[i].forking == -1 && !u[i].chan.OnProc?)
      && (u[i].state == SLEEPING && t[i].state == SLEEPING ==> u[i].chan == t[i].chan)
  }

  lemma HarmlessKeeps(s: State, u: Table)
    requires Inv(s) && Harmless(s.t, u)
    ensures Inv(s.(t := u))
  {
    var t := s.(t := u);
    forall i | 0 <= i < NPROC ensures SlotOk(t, i) {
      assert SlotOk(s, i);
      KidsFrame(s.t, u, i);
    }
  }

  /** A sleeper's reason survives when parents and deaths stay as they were. */
  lemma SleeperFrame(s: State, t: State, i: nat)
    requires i < NPROC && SleeperOk(s, i)
    requires forall j | 0 <= j < NPROC ::
               t.t[j].parent == s.t[j].parent && (t.t[j].state == ZOMBIE <==> s.t[j].state == ZOMBIE)
    requires t.t[i].state == SLEEPING ==> s.t[i].state == SLEEPING && t.t[i].chan == s.t[i].chan
    ensures SleeperOk(t, i)
  {
    KidsFrame(s.t, t.t, i);
  }

  lemma ForkAllocKeeps(s: State, p: nat)
    requires Inv(s) && Enabled(s, ForkAlloc(p))
    ensures Inv(Next(s, ForkAlloc(p)))
  {
    var t := Next(s, ForkAlloc(p));
    var k := FirstUnused(s.t, 0);
    if k < NPROC {
      forall i | 0 <= i < NPROC
        ensures SlotOk(t, i)
        ensures s.t[i].forking != k && s.t[i].pid < s.nextpid
      {
        ForkAllocFresh(s, p, k, i);
        ForkAllocSlot(s, t, p, k, i);
      }
      ForkAllocDistinct(s, t, p, k);
      assert SlotOk(s, k);
    }
  }

  lemma ForkAllocDistinct(s: State, t: State, p: nat, k: nat)
    requires DistinctOk(s) && ReapedOk(s) && p < NPROC && k < NPROC && p != k && 1 <= s.nextpid
    requires forall i | 0 <= i < NPROC :: s.t[i].forking != k && s.t[i].pid < s.nextpid
    requires t == s.(t := s.t[k := s.t[k].(state := EMBRYO, pid := s.nextpid)][p := s.t[p].(forking := k)],
                     nextpid := s.nextpid + 1)
    ensures DistinctOk(t) && ReapedOk(t)
  {
  }

  lemma ForkAllocSlot(s: State, t: State, p: nat, k: nat, i: nat)
    requires Inv(s) && Acts(s, p) && k < NPROC && s.t[k].state == UNUSED && i < NPROC
    requires t == s.(t := s.t[k := s.t[k].(state := EMBRYO, pid := s.nextpid)][p := s.t[p].(forking := k)],
                     nextpid := s.nextpid + 1)
    ensures SlotOk(t, i)
  {
    assert SlotOk(s, k) && SlotOk(s, p) && SlotOk(s, i);
    SleeperFrame(s, t, i);
    assert s.t[i].parent != -1 ==> SlotOk(s, s.t[i].parent);
  }

  lemma ForkAllocFresh(s: State, p: nat, k: nat, i: nat)
    requires Inv(s) && Enabled(s, ForkAlloc(p)) && k == FirstUnused(s.t, 0) < NPROC && i < NPROC
    ensures s.t[i].forking != k && s.t[i].pid < s.nextpid
  {
    assert SlotOk(s, i);
  }

  lemma ForkFailKeeps(s: State, p: nat)
    requires Inv(s) && Enabled(s, ForkFail(p))
    ensures Inv(Next(s, ForkFail(p)))
  {
    var t := Next(s, ForkFail(p));
    assert SlotOk(s, p);
    forall i | 0 <= i < NPROC ensures SlotOk(t, i) {
      LeaveFork(s, t, p, UNUSED, i);
    }
  }

  /** t is s after process p has left its fork with the child in this state: UNUSED again if it
      has no parent yet, or RUNNABLE. */
  predicate Leaves(s: State, t: State, p: nat, state: PState)
    requires InFork(s, p)
  {
    var k := s.t[p].forking;
    var u := s.t[k := s.t[k].(state := state)];
    && t == s.(t := u[p := u[p].(forking := -1)])
    && if s.t[k].parent == -1 then state == UNUSED else state == RUNNABLE && s.t[k].parent == p
  }

  lemma LeaveFork(s: State, t: State, p: nat, state: PState, i: nat)
    requires Inv(s) && InFork(s, p) && i < NPROC && Leaves(s, t, p, state)
    ensures SlotOk(t, i)
  {
    assert SlotOk(s, s.t[p].forking) && SlotOk(s, p) && SlotOk(s, i);
    SleeperFrame(s, t, i);
    LeaveParent(s, t, p, state, i);
    LeaveForkOk(s, t, p, state, i);
  }

  lemma LeaveParent(s: State, t: State, p: nat, state: PState, i: nat)
    requires Inv(s) && InFork(s, p) && i < NPROC && Leaves(s, t, p, state)
    ensures ParentOk(t, i)
  {
    assert SlotOk(s, s.t[p].forking) && SlotOk(s, p) && SlotOk(s, i);
    assert s.t[i].parent != -1 ==> SlotOk(s, s.t[i].parent);
  }

  lemma LeaveForkOk(s: State, t: State, p: nat, state: PState, i: nat)
    requires Inv(s) && InFork(s, p) && i < NPROC && Leaves(s, t, p, state)
    ensures ForkOk(t, i)
  {
    var k := s.t[p].forking;
    assert SlotOk(s, k) && SlotOk(s, p) && SlotOk(s, i);
    assert i == p || s.t[i].forking != k;
  }

  lemma ForkParentKeeps(s: State, p: nat)
    requires Inv(s) && Enabled(s, ForkParent(p))
    ensures Inv(Next(s, ForkParent(p)))
  {
    var t := Next(s, ForkParent(p));
    var k := s.t[p].forking;
    assert SlotOk(s, k) && SlotOk(s, p);
    forall i | 0 <= i < NPROC ensures SlotOk(t, i) {
      assert SlotOk(s, i);
      NewChild(s.t, t.t, k, p, i);
    }
  }

  /** A child that is no zombie gives nobody a zombie. */
  lemma NewChild(t: Table, u: Table, k: int, p: int, i: int)
    requires 0 <= k < NPROC && u == t[k := t[k].(parent := p)] && t[k].state == EMBRYO && t[k].parent == -1 && i != -1
    ensures HasZombie(u, i) ==> HasZombie(t, i)
    ensures HasKids(t, i) ==> HasKids(u, i)
  {
    if HasZombie(u, i) {
      var z :| 0 <= z < NPROC && u[z].parent == i && u[z].state == ZOMBIE;
      assert t[z].parent == i && t[z].state == ZOMBIE;
    }
    if HasKids(t, i) {
      var j :| 0 <= j < NPROC && t[j].parent == i;
      assert u[j].parent == i;
    }
  }

  lemma ForkDoneKeeps(s: State, p: nat)
    requires Inv(s) && Enabled(s, ForkDone(p))
    ensures Inv(Next(s, ForkDone(p)))
  {
    var t := Next(s, ForkDone(p));
    assert SlotOk(s, p);
    forall i | 0 <= i < NPROC ensures SlotOk(t, i) {
      LeaveFork(s, t, p, RUNNABLE, i);
    }
  }

  /** What exit does to another process: it may wake it, it may hand it to init. */
  lemma ExitAt(t: Table, p: int, init: int, i: int)
    requires 0 <= p < NPROC && 0 <= i < NPROC && i != p
    ensures var x, y := t[i], Exit(t, p, init)[i];
            && y == x.(state := y.state, parent := if x.parent == p then init else x.parent)
            && (y.state == x.state || (x.state == SLEEPING && y.state == RUNNABLE && x.chan.OnProc?))
            && (y.state == SLEEPING && x.chan.OnProc? ==>
                  x.chan.i != t[p].parent && (x.chan.i == init ==> !HasZombie(t, p)))
  {
    var w := Wakeup(t, OnProc(t[p].parent));
    KidsFrame(t, w, p);
  }

  /** exit leaves nobody asleep over a child that became a zombie or was handed over. */
  lemma ExitZombies(s: State, p: nat, i: nat)
    requires Inv(s) && Enabled(s, ExitProc(p)) && i < NPROC && i != p
    requires !HasZombie(s.t, i) && i != s.t[p].parent && (i == s.init ==> !HasZombie(s.t, p))
    ensures !HasZombie(Exit(s.t, p, s.init), i)
  {
    var t, u := s.t, Exit(s.t, p, s.init);
    assert SlotOk(s, p);
    if HasZombie(u, i) {
      var z :| 0 <= z < NPROC && u[z].parent == i && u[z].state == ZOMBIE;
      if z != p {
        ExitAt(t, p, s.init, z);
      }
    }
  }

  lemma ExitKids(s: State, p: nat, i: nat)
    requires Inv(s) && Enabled(s, ExitProc(p)) && i < NPROC && i != p && HasKids(s.t, i) && i != s.t[p].parent
    ensures HasKids(Exit(s.t, p, s.init), i)
  {
    var j :| 0 <= j < NPROC && s.t[j].parent == i;
    ExitAt(s.t, p, s.init, j);
    assert Exit(s.t, p, s.init)[j].parent == i;
  }

  /** exit wakes those whose reason to sleep it takes away. */
  lemma ExitSleeper(s: State, p: nat, i: nat)
    requires Inv(s) && Enabled(s, ExitProc(p)) && i < NPROC && i != p
    ensures SleeperOk(Next(s, ExitProc(p)), i)
  {
    assert SlotOk(s, i);
    ExitAt(s.t, p, s.init, i);
    if Exit(s.t, p, s.init)[i].state == SLEEPING && s.t[i].chan.OnProc? {
      ExitZombies(s, p, i);
      ExitKids(s, p, i);
    }
  }

  lemma ExitKeeps(s: State, p: nat)
    requires Inv(s) && Enabled(s, ExitProc(p))
    ensures Inv(Next(s, ExitProc(p)))
  {
    var u := Exit(s.t, p, s.init);
    var t := s.(t := u);
    assert SlotOk(s, p) && SlotOk(s, s.init);
    var v := Reparent(Wakeup(s.t, OnProc(s.t[p].parent)), p, s.init);
    assert u[p] == s.t[p].(state := ZOMBIE);
    forall i | 0 <= i < NPROC
      ensures u[i].pid == s.t[i].pid && u[i].forking == s.t[i].forking
    {
      if i != p {
        ExitAt(s.t, p, s.init, i);
      }
    }
    ExitAt(s.t, p, s.init, s.init);
    forall i | 0 <= i < NPROC ensures SlotOk(t, i) {
      ExitSlot(s, p, i);
    }
  }

  lemma ExitSlot(s: State, p: nat, i: nat)
    requires Inv(s) && Enabled(s, ExitProc(p)) && i < NPROC
    ensures SlotOk(Next(s, ExitProc(p)), i)
  {
    var u := Exit(s.t, p, s.init);
    assert SlotOk(s, i) && SlotOk(s, p);
    var q := s.t[i].parent;
    if q != -1 && q != p {
      ExitAt(s.t, p, s.init, q);
    }
    ExitAt(s.t, p, s.init, s.init);
    var f := s.t[i].forking;
    if f != -1 {
      ExitAt(s.t, p, s.init, f);
    }
    if i != p {
      ExitAt(s.t, p, s.init, i);
      ExitSleeper(s, p, i);
    }
  }

  lemma ReapKeeps(s: State, p: nat, k: nat)
    requires Inv(s) && Acts(s, p) && k < NPROC && s.t[k].parent == p && s.t[k].state == ZOMBIE
    ensures Inv(s.(t := s.t[k := Freed(s.t[k])], reaped := s.reaped + [s.t[k].pid]))
  {
    var t := s.(t := s.t[k := Freed(s.t[k])], reaped := s.reaped + [s.t[k].pid]);
    assert SlotOk(s, k) && SlotOk(s, p) && SlotOk(s, s.init);
    forall i | 0 <= i < NPROC ensures SlotOk(t, i) {
      assert SlotOk(s, i);
      if t.t[i].state == SLEEPING && t.t[i].chan.OnProc? {
        var j :| 0 <= j < NPROC && s.t[j].parent == i;
        assert t.t[j].parent == i;
      }
    }
  }

  lemma WaitSleepKeeps(s: State, p: nat)
    requires Inv(s) && Acts(s, p) && HasKids(s.t, p) && !HasZombie(s.t, p)
    ensures Inv(s.(t := s.t[p := s.t[p].(state := SLEEPING, chan := OnProc(p))]))
  {
    var t := s.(t := s.t[p := s.t[p].(state := SLEEPING, chan := OnProc(p))]);
    assert SlotOk(s, p);
    forall i | 0 <= i < NPROC ensures SlotOk(t, i) {
      assert SlotOk(s, i);
      KidsFrame(s.t, t.t, i);
    }
  }

  lemma WaitKeeps(s: State, p: nat)
    requires Inv(s) && Enabled(s, WaitProc(p))
    ensures Inv(Next(s, WaitProc(p)))
  {
    var k := ZombieFrom(s.t, p, 0);
    if k < NPROC {
      ReapKeeps(s, p, k);
    } else if HasKids(s.t, p) && !s.t[p].killed {
      WaitSleepKeeps(s, p);
    }
  }

  lemma StepKeeps(s: State, e: Event)
    requires Inv(s) && Enabled(s, e)
    ensures Inv(Next(s, e))
  {
    match e
    case ForkAlloc(p) => ForkAllocKeeps(s, p);
    case ForkFail(p) => ForkFailKeeps(s, p);
    case ForkParent(p) => ForkParentKeeps(s, p);
    case ForkDone(p) => ForkDoneKeeps(s, p);
    case ExitProc(p) => ExitKeeps(s, p);
    case WaitProc(p) => WaitKeeps(s, p);
    case KillPid(pid) => HarmlessKeeps(s, Next(s, e).t);
    case WakeupOn(x) => HarmlessKeeps(s, Next(s, e).t);
    case _ => HarmlessKeeps(s, Next(s, e).t);
  }

  // ------------------------------------------------------------ whole runs

  ghost predicate IsRun(ss: seq<State>, es: seq<Event>)
  {
    && |ss| == |es| + 1
    && forall i | 0 <= i < |es| :: Enabled(ss[i], es[i]) && ss[i + 1] == Next(ss[i], es[i])
  }

  /** After userinit: the first process is RUNNABLE, every other slot unused. */
  predicate Boot(s: State)
  {
    && 0 <= s.init < NPROC && s.nextpid == 2 && s.reaped == []
    && s.t[s.init] == Proc(RUNNABLE, 1, -1, Nothing, false, -1)
    && forall i | 0 <= i < NPROC && i != s.init :: s.t[i] == Proc(UNUSED, 0, -1, Nothing, false, -1)
  }

  lemma {:induction false} RunKeeps(ss: seq<State>, es: seq<Event>, k: nat)
    requires IsRun(ss, es) && Boot(ss[0]) && k <= |es|
    ensures Inv(ss[k])
  {
    if k > 0 {
      RunKeeps(ss, es, k - 1);
      StepKeeps(ss[k - 1], es[k - 1]);
    }
  }

  /** At every point of every run: a process asleep in wait has a child and no child it
      could reap; every parent can still act; every zombie has such a parent; and no
      child has been reaped twice, nor is a reaped pid in use again. */
  lemma WaitSound(ss: seq<State>, es: seq<Event>, k: nat)
    requires IsRun(ss, es) && Boot(ss[0]) && k <= |es|
    ensures var s := ss[k];
            && (forall p | 0 <= p < NPROC && s.t[p].state == SLEEPING && s.t[p].chan == OnProc(p) ::
                  HasKids(s.t, p) && !HasZombie(s.t, p))
            && (forall i | 0 <= i < NPROC && s.t[i].state != UNUSED && s.t[i].parent != -1 ::
                  0 <= s.t[i].parent < NPROC && Live(s.t[s.t[i].parent]))
            && (forall i | 0 <= i < NPROC && s.t[i].state == ZOMBIE :: s.t[i].parent != -1)
            && (forall a, b | 0 <= a < b < |s.reaped| :: s.reaped[a] != s.reaped[b])
            && (forall a, i | 0 <= a < |s.reaped| && 0 <= i < NPROC :: s.reaped[a] != s.t[i].pid)
  {
    RunKeeps(ss, es, k);
    var s := ss[k];
    forall i | 0 <= i < NPROC
      ensures SlotOk(s, i)
      ensures s.t[i].state == SLEEPING && s.t[i].chan == OnProc(i) ==> HasKids(s.t, i) && !HasZombie(s.t, i)
      ensures s.t[i].parent != -1 ==> 0 <= s.t[i].parent < NPROC && Live(s.t[s.t[i].parent])
      ensures s.t[i].state == ZOMBIE ==> s.t[i].parent != -1
    {
      assert SlotOk(s, i);
    }
  }

  // ------------------------------------------- effects, and whole lives

  /** What the exit of p, whose parent is q, makes of another process: a child goes to init, and
      a process asleep in wait wakes if it is q, or init taking over a zombie. */
  predicate ExitsBeside(x: Proc, y: Proc, p: int, init: int, q: int, zombie: bool)
  {
    var wakes := x.state == SLEEPING && (x.chan == OnProc(q) || (zombie && x.chan == OnProc(init)));
    y == x.(parent := if x.parent == p then init else x.parent, state := if wakes then RUNNABLE else x.state)
  }

  lemma ExitEffect(t: Table, p: int, init: int, i: int)
    requires 0 <= p < NPROC && 0 <= i < NPROC && i != p
    ensures ExitsBeside(t[i], Exit(t, p, init)[i], p, init, t[p].parent, HasZombie(t, p))
  {
    var w := Wakeup(t, OnProc(t[p].parent));
    KidsFrame(t, w, p);
  }

  /** k was a zombie child of p with this pid, and its slot is free now. */
  predicate Reaps(t: Table, u: Table, p: int, k: int, pid: int)
    requires 0 <= k < NPROC
  {
    && t[k].parent == p && t[k].state == ZOMBIE && t[k].pid == pid
    && u == t[k := t[k].(pid := 0, parent := -1, killed := false, state := UNUSED)]
  }

  /** k is the first process with the pid; it is marked and does not sleep. */
  predicate Kills(t: Table, u: Table, pid: int, k: int)
    requires 0 <= k < NPROC
  {
    && t[k].pid == pid && (forall i | 0 <= i < k :: t[i].pid != pid)
    && u == t[k := t[k].(killed := true, state := if t[k].state == SLEEPING then RUNNABLE else t[k].state)]
  }

  /** fork as a whole: one slot that was free holds a RUNNABLE child of p with a new pid. */
  lemma ForkEffect(s: State, p: nat, k: nat)
    requires Inv(s) && Enabled(s, ForkAlloc(p)) && k == FirstUnused(s.t, 0) < NPROC
    ensures var a := Next(s, ForkAlloc(p));
            && Enabled(a, ForkParent(p))
            && var b := Next(a, ForkParent(p));
               && Enabled(b, ForkDone(p)) && s.t[k].state == UNUSED
               && Next(b, ForkDone(p)) ==
                  s.(t := s.t[k := s.t[k].(state := RUNNABLE, pid := s.nextpid, parent := p)], nextpid := s.nextpid + 1)
  {
    assert SlotOk(s, k) && SlotOk(s, p);
    var x := s.t[k].(state := RUNNABLE, pid := s.nextpid, parent := p);
    var b := Next(Next(s, ForkAlloc(p)), ForkParent(p));
    assert Next(b, ForkDone(p)).t == s.t[k := x];
  }

  /** A child that exits is what its parent's next wait reaps, if the parent has no other
      zombie to reap. */
  lemma ChildReaped(s: State, c: nat, p: nat)
    requires Enabled(s, ExitProc(c)) && p < NPROC && s.t[c].parent == p != c
    requires !HasZombie(s.t, p) && (p == s.init ==> !HasZombie(s.t, c))
    ensures var t := Next(s, ExitProc(c));
            Enabled(t, WaitProc(p)) ==>
              var u := Next(t, WaitProc(p));
              u.reaped == s.reaped + [s.t[c].pid] && Reaps(t.t, u.t, p, c, s.t[c].pid)
  {
    OneZombie(s.t, c, p, s.init);
    var t := Next(s, ExitProc(c));
    if Enabled(t, WaitProc(p)) {
      WaitReaps(t, p, c);
    }
  }

  predicate ZombieOf(t: Table, p: int, i: int)
    requires 0 <= i < NPROC
  {
    t[i].parent == p && t[i].state == ZOMBIE
  }

  lemma OneZombie(t: Table, c: nat, p: int, init: int)
    requires c < NPROC && t[c].parent == p != c && !HasZombie(t, p) && (p == init ==> !HasZombie(t, c))
    ensures var u := Exit(t, c, init);
            && u[c].parent == p && u[c].state == ZOMBIE && u[c].pid == t[c].pid
            && forall i | 0 <= i < NPROC && i != c :: !ZombieOf(u, p, i)
  {
    forall i | 0 <= i < NPROC && i != c ensures !ZombieOf(Exit(t, c, init), p, i) {
      ExitEffect(t, c, init, i);
      assert !ZombieOf(t, p, i) && (p == init ==> !ZombieOf(t, c, i));
    }
  }

  lemma WaitReaps(s: State, p: nat, c: nat)
    requires p < NPROC && c < NPROC && ZombieOf(s.t, p, c)
    requires forall i | 0 <= i < NPROC && i != c :: !ZombieOf(s.t, p, i)
    ensures var u := Wait(s, p);
            u.reaped == s.reaped + [s.t[c].pid] && Reaps(s.t, u.t, p, c, s.t[c].pid)
  {
    var k := ZombieFrom(s.t, p, 0);
    assert k < NPROC ==> ZombieOf(s.t, p, k);
    assert k == c;
  }

  // ------------------------------------------------- the code's own loops

  class ProcTable {
    var t: Table
    const init: int

    method Wakeup1(chan: Chan)
      modifies this
      ensures t == Wakeup(old(t), chan)
      ensures forall i | 0 <= i < NPROC ::
                t[i] == if old(t)[i].state == SLEEPING && old(t)[i].chan == chan then old(t)[i].(state := RUNNABLE)
                        else old(t)[i]
    {
      var i := 0;
      while i < NPROC
        invariant 0 <= i <= NPROC
        invariant forall k | 0 <= k < NPROC :: t[k] == if k < i then Woken(old(t)[k], chan) else old(t)[k]
      {
        if t[i].state == SLEEPING && t[i].chan == chan {
          t := t[i := t[i].(state := RUNNABLE)];
        }
        i := i + 1;
      }
    }

    /** exit: the wakeup of the parent, the loop that hands the children to init, and
        the state change. */
    method ExitProcess(p: int)
      requires 0 <= p < NPROC && 0 <= init < NPROC
      modifies this
      ensures t == Exit(old(t), p, init)
      ensures t[p].state == ZOMBIE && t[p].pid == old(t)[p].pid
      ensures forall i | 0 <= i < NPROC && i != p ::
                ExitsBeside(old(t)[i], t[i], p, init, old(t)[p].parent, HasZombie(old(t), p))
    {
      Wakeup1(OnProc(t[p].parent));
      ghost var w := t;
      ghost var woke := false;
      var i := 0;
      while i < NPROC
        invariant 0 <= i <= NPROC
        invariant woke <==> exists j | 0 <= j < i :: w[j].parent == p && w[j].state == ZOMBIE
        invariant forall k | 0 <= k < NPROC :: t[k] == Handed(w[k], p, init, k < i, woke)
      {
        if t[i].parent == p {
          t := t[i := t[i].(parent := init)];
          if t[i].state == ZOMBIE {
            Wakeup1(OnProc(init));
            woke := true;
          }
        }
        i := i + 1;
      }
      t := t[p := t[p].(state := ZOMBIE)];
      assert woke <==> HasZombie(w, p);
      assert t == Exit(old(t), p, init);
      forall i | 0 <= i < NPROC && i != p
        ensures ExitsBeside(old(t)[i], t[i], p, init, old(t)[p].parent, HasZombie(old(t), p))
      {
        ExitEffect(old(t), p, init, i);
      }
    }

    /** One scan of wait: the pid of a reaped child, -1 for nothing to wait for, or 0
        for asleep. */
    method WaitScan(p: int, ghost s: State) returns (pid: int)
      requires 0 <= p < NPROC && s.t == t
      modifies this
      ensures t == Wait(s, p).t
      ensures Wait(s, p).reaped == if ZombieFrom(s.t, p, 0) < NPROC then s.reaped + [pid] else s.reaped
      ensures ZombieFrom(s.t, p, 0) == NPROC ==> pid == if !HasKids(s.t, p) || s.t[p].killed then -1 else 0
      ensures HasZombie(old(t), p) ==> exists k | 0 <= k < NPROC :: Reaps(old(t), t, p, k, pid)
      ensures !HasZombie(old(t), p) && (!HasKids(old(t), p) || old(t)[p].killed) ==> t == old(t) && pid == -1
      ensures !HasZombie(old(t), p) && HasKids(old(t), p) && !old(t)[p].killed ==>
                t == old(t)[p := old(t)[p].(state := SLEEPING, chan := OnProc(p))] && pid == 0
    {
      var k, havekids := FindZombie(p);
      if k < NPROC {
        pid := t[k].pid;
        t := t[k := t[k].(pid := 0, parent := -1, killed := false, state := UNUSED)];
        assert Reaps(old(t), t, p, k, pid);
        return;
      }
      assert !HasZombie(t, p);
      if !havekids || t[p].killed {
        return -1;
      }
      t := t[p := t[p].(state := SLEEPING, chan := OnProc(p))];
      pid := 0;
    }

    /** kill: marks the first process with the pid and wakes it if it sleeps. */
    method KillProcess(pid: int) returns (r: int)
      modifies this
      ensures t == Kill(old(t), pid)
      ensures r == -1 ==> t == old(t) && forall i | 0 <= i < NPROC :: t[i].pid != pid
      ensures r != -1 ==> r == 0 && exists k | 0 <= k < NPROC :: Kills(old(t), t, pid, k)
    {
      var k := 0;
      while k < NPROC && t[k].pid != pid
        invariant 0 <= k <= NPROC && SlotOf(t, pid, k) == SlotOf(t, pid, 0)
        invariant forall i | 0 <= i < k :: t[i].pid != pid
      {
        k := k + 1;
      }
      if k == NPROC {
        return -1;
      }
      t := t[k := t[k].(killed := true)];
      if t[k].state == SLEEPING {
        t := t[k := t[k].(state := RUNNABLE)];
      }
      assert Kills(old(t), t, pid, k);
      r := 0;
    }

    /** wait's loop over the table. */
    method FindZombie(p: int) returns (k: int, havekids: bool)
      ensures k == ZombieFrom(t, p, 0)
      ensures k == NPROC ==> (havekids <==> HasKids(t, p))
    {
      havekids := false;
      k := 0;
      while k < NPROC
        invariant 0 <= k <= NPROC
        invariant ZombieFrom(t, p, k) == ZombieFrom(t, p, 0)
        invariant havekids <==> exists j | 0 <= j < k :: t[j].parent == p
      {
        if t[k].parent == p {
          havekids := true;
          if t[k].state == ZOMBIE {
            return;
          }
        }
        k := k + 1;
      }
    }
  }

  function Handed(x: Proc, p: int, init: int, seen: bool, woke: bool): Proc
  {
    var y := if seen && x.parent == p then x.(parent := init) else x;
    if woke then Woken(y, OnProc(init)) else y
  }
}
