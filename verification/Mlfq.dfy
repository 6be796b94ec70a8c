/** The MLFQ scheduler of proc.c and trap.c as a state machine: each event is one
    stay under ptable.lock.  Any number of CPUs; the timer check of every CPU follows
    the tick it saw before anything else happens. */
module Mlfq {
  import opened Procs

  const LEVELS := 5
  const QUEUE_SLOTS := 65   // queue_ptr[5][65]
  const TICKS_CHAN := 1     // &ticks, where sys_sleep waits

  function Limit(level: int): int   // runtime_limit
    requires 0 <= level < LEVELS
  {
    [1, 2, 4, 8, 16][level]
  }

  function Patience(level: int): int   // patience_threshold
    requires 0 <= level < LEVELS
  {
    [60, 20, 25, 30, 35][level]
  }

  /** The scheduler's part of struct proc.  ready says that initialize_new_fields has
      run since the slot was taken. */
  datatype Proc = Proc(
    state: PState, pid: int, chan: int, killed: bool, ready: bool,
    level: int,             // curr_queue_id
    wait: int,              // curr_wait_time
    slice: int,             // curr_ticks_got
    demote: bool,           // should_demote
    run: int, sleep: int,   // tot_run_time, tot_sleep_time
    levelTicks: seq<int>,   // tot_ticks_got
    created: int, ended: int)

  datatype State = State(procs: seq<Proc>, queues: seq<seq<int>>, nextpid: int, ticks: int)

  predicate Shape(s: State)
  {
    && |s.procs| == NPROC && |s.queues| == LEVELS
    && forall q, k | 0 <= q < LEVELS && 0 <= k < |s.queues[q]| :: 0 <= s.queues[q][k] < NPROC
  }

  // ------------------------------------------- the two queue operations

  /** The first of the queue entries from i on that carries pid, or |queue|. */
  function FindPid(procs: seq<Proc>, queue: seq<int>, pid: int, i: nat): (k: nat)
    requires i <= |queue| && forall j | 0 <= j < |queue| :: 0 <= queue[j] < |procs|
    ensures i <= k <= |queue|
    ensures k < |queue| ==> procs[queue[k]].pid == pid
    ensures forall j | i <= j < k :: procs[queue[j]].pid != pid
    decreases |queue| - i
  {
    if i == |queue| || procs[queue[i]].pid == pid then i else FindPid(procs, queue, pid, i + 1)
  }

  function Remove(queue: seq<int>, k: nat): seq<int>
  {
    if k < |queue| then queue[..k] + queue[k + 1..] else queue
  }

  /** delete_process */
  function Delete(s: State, p: int, q: int): (t: State)
    requires Shape(s) && 0 <= p < NPROC && 0 <= q < LEVELS
    ensures Shape(t)
  {
    s.(queues := s.queues[q := Remove(s.queues[q], FindPid(s.procs, s.queues[q], s.procs[p].pid, 0))])
  }

  /** push_back_process.  Its scan for a duplicate stops before the last slot in use. */
  function PushBack(s: State, p: int, q: int): (t: State)
    requires Shape(s) && 0 <= p < NPROC && 0 <= q < LEVELS
    ensures Shape(t)
  {
    var queue := s.queues[q];
    if FindPid(s.procs, queue, s.procs[p].pid, 0) < |queue| - 1 then s
    else s.(queues := s.queues[q := queue + [p]], procs := s.procs[p := s.procs[p].(level := q)])
  }

  // ------------------------------------------------------- the scheduler

  predicate Aged(s: State, p: int, level: int)
    requires Shape(s) && 0 <= p < NPROC && 0 <= level < LEVELS
  {
    s.procs[p].wait > Patience(level)
  }

  /** One promotion of the aging loop. */
  function Promote(s: State, p: int, i: int): (t: State)
    requires Shape(s) && 0 <= p < NPROC && 1 <= i < LEVELS
    ensures Shape(t) && |t.queues[i]| <= |s.queues[i]|
  {
    var d := Delete(s, p, i);
    PushBack(d.(procs := d.procs[p := d.procs[p].(wait := 0)]), p, i - 1)
  }

  /** The inner aging loop of level i from index j on: j moves on after a deletion too. */
  function AgeFrom(s: State, i: int, j: nat): (t: State)
    requires Shape(s) && 1 <= i < LEVELS
    ensures Shape(t)
    decreases |s.queues[i]| - j
  {
    if j >= |s.queues[i]| then s
    else if Aged(s, s.queues[i][j], i) then
      AgeFrom(Promote(s, s.queues[i][j], i), i, j + 1)
    else AgeFrom(s, i, j + 1)
  }

  function AgeAll(s: State): (t: State)
    requires Shape(s)
    ensures Shape(t)
  {
    AgeFrom(AgeFrom(AgeFrom(AgeFrom(s, 1, 0), 2, 0), 3, 0), 4, 0)
  }

  /** The first non-empty queue from level i on, or LEVELS. */
  function FirstBusy(s: State, i: nat): (k: nat)
    requires Shape(s) && i <= LEVELS
    ensures i <= k <= LEVELS
    ensures k < LEVELS ==> s.queues[k] != []
    ensures forall j | i <= j < k :: s.queues[j] == []
    decreases LEVELS - i
  {
    if i == LEVELS || s.queues[i] != [] then i else FirstBusy(s, i + 1)
  }

  function Pick(s: State): (t: State)
    requires Shape(s)
    ensures Shape(t)
  {
    var k := FirstBusy(s, 0);
    if k == LEVELS then s
    else
      var p := s.queues[k][0];
      var d := Delete(s, p, k);
      if d.procs[p].state != RUNNABLE then d
      else d.(procs := d.procs[p := d.procs[p].(slice := 0, state := RUNNING, wait := 0)])
  }

  /** scheduler() up to the swtch to the chosen process. */
  function Dispatch(s: State): (t: State)
    requires Shape(s)
    ensures Shape(t)
  {
    Pick(AgeAll(s))
  }

  /** yield() and the scheduler's lower half after it. */
  function Yield(s: State, p: int): (t: State)
    requires Shape(s) && 0 <= p < NPROC && 0 <= s.procs[p].level < LEVELS
    ensures Shape(t)
  {
    var x := s.procs[p].(state := RUNNABLE);
    var y := if x.demote
             then x.(demote := false, slice := 0, wait := 0, level := if x.level < 4 then x.level + 1 else x.level)
             else x;
    PushBack(s.(procs := s.procs[p := y]), p, y.level)
  }

  // -------------------------------------------------------------- ticks

  /** update_process_stats for one process. */
  function Account(x: Proc): Proc
  {
    if x.killed || x.pid == 0 then x
    else if x.state == RUNNING then
      x.(run := x.run + 1, slice := x.slice + 1,
         levelTicks := if 0 <= x.level < |x.levelTicks| then x.levelTicks[x.level := x.levelTicks[x.level] + 1]
                       else x.levelTicks)
    else if x.state == SLEEPING then x.(sleep := x.sleep + 1)
    else if x.state == RUNNABLE then x.(wait := x.wait + 1)
    else x
  }

  function AccountAll(s: State): (t: State)
    ensures |t.procs| == |s.procs| && t.queues == s.queues && t.nextpid == s.nextpid
  {
    s.(procs := seq(|s.procs|, i requires 0 <= i < |s.procs| => Account(s.procs[i])), ticks := s.ticks + 1)
  }

  predicate LevelsOk(s: State)
  {
    forall p | 0 <= p < |s.procs| && (s.procs[p].state == RUNNING || s.procs[p].state == SLEEPING) ::
      0 <= s.procs[p].level < LEVELS
  }

  /** The quantum check of trap() for the process in slot p: setup_demotion and yield. */
  function Check(s: State, p: int): (t: State)
    requires Shape(s) && LevelsOk(s) && 0 <= p < NPROC
    ensures Shape(t)
  {
    var x := s.procs[p];
    if x.state == RUNNING && x.slice >= Limit(x.level) + 1
    then Yield(s.(procs := s.procs[p := x.(demote := true)]), p)
    else s
  }

  function CheckFrom(s: State, p: nat): (t: State)
    requires Shape(s) && LevelsOk(s) && p <= NPROC
    ensures Shape(t)
    decreases NPROC - p
  {
    if p == NPROC then s
    else
      var t := Check(s, p);
      assert forall i | 0 <= i < NPROC && i != p :: t.procs[i] == s.procs[i];
      CheckFrom(t, p + 1)
  }

  /** The timer interrupt: the accounts, the sleepers on ticks, then the quantum checks. */
  function Tick(s: State): (t: State)
    requires Shape(s) && LevelsOk(s)
    ensures Shape(t)
  {
    var a := AccountAll(s);
    assert forall i | 0 <= i < NPROC :: a.procs[i].level == s.procs[i].level && a.procs[i].state == s.procs[i].state;
    CheckFrom(WakeFrom(a, TICKS_CHAN, 0), 0)
  }

  // ------------------------------------------------------ other events

  function FirstUnused(procs: seq<Proc>, i: nat): (k: nat)
    requires i <= |procs|
    ensures i <= k <= |procs|
    ensures k < |procs| ==> procs[k].state == UNUSED
    decreases |procs| - i
  {
    if i == |procs| || procs[i].state == UNUSED then i else FirstUnused(procs, i + 1)
  }

  function Initialised(x: Proc, now: int): Proc
  {
    x.(created := now, sleep := 0, run := 0, ended := 0, wait := 0, slice := 0, level := 0,
       levelTicks := [0, 0, 0, 0, 0], ready := true)
  }

  /** wakeup1 on the sleeper in slot i. */
  function Woken(s: State, i: int): (t: State)
    requires Shape(s) && LevelsOk(s) && 0 <= i < NPROC && s.procs[i].state == SLEEPING
    ensures Shape(t) && LevelsOk(t)
  {
    var x := s.procs[i].(state := RUNNABLE, slice := 0);
    var t := PushBack(s.(procs := s.procs[i := x]), i, x.level);
    assert forall j | 0 <= j < NPROC && j != i :: t.procs[j] == s.procs[j];
    t
  }

  /** wakeup1 from slot i on. */
  function WakeFrom(s: State, chan: int, i: nat): (t: State)
    requires Shape(s) && LevelsOk(s) && i <= NPROC
    ensures Shape(t) && LevelsOk(t)
    decreases NPROC - i
  {
    if i == NPROC then s
    else if s.procs[i].state == SLEEPING && s.procs[i].chan == chan then WakeFrom(Woken(s, i), chan, i + 1)
    else WakeFrom(s, chan, i + 1)
  }

  function SlotOf(procs: seq<Proc>, pid: int, i: nat): (k: nat)
    requires i <= |procs|
    ensures i <= k <= |procs|
    ensures k < |procs| ==> procs[k].pid == pid
    decreases |procs| - i
  {
    if i == |procs| || procs[i].pid == pid then i else SlotOf(procs, pid, i + 1)
  }

  function Kill(s: State, pid: int): (t: State)
    requires Shape(s) && LevelsOk(s)
    ensures Shape(t)
  {
    var p := SlotOf(s.procs, pid, 0);
    if p == NPROC then s
    else
      var x := s.procs[p].(killed := true);
      var k := s.(procs := s.procs[p := x]);
      if x.state != SLEEPING then k
      else
        var t := PushBack(k, p, x.level);
        t.(procs := t.procs[p := t.procs[p].(state := RUNNABLE)])
  }

  datatype Event =
    | Alloc              // allocproc, under the lock
    | Init(p: int)       // initialize_new_fields
    | Abort(p: int)      // allocation failed: back to UNUSED
    | Start(p: int)      // the end of fork or userinit
    | Schedule           // the scheduler's upper half
    | Sleep(p: int, chan: int)
    | Wakeup(chan: int)
    | KillPid(pid: int)
    | Exit(p: int)       // the ZOMBIE part; its wakeups are Wakeup events
    | Reap(p: int)       // wait or waitx frees a child
    | TimerTick

  predicate Enabled(s: State, e: Event)
  {
    match e
    case Init(p) => 0 <= p < |s.procs| && s.procs[p].state == EMBRYO
    case Abort(p) => 0 <= p < |s.procs| && s.procs[p].state == EMBRYO
    case Start(p) => 0 <= p < |s.procs| && s.procs[p].state == EMBRYO && s.procs[p].ready
    case Sleep(p, _) => 0 <= p < |s.procs| && s.procs[p].state == RUNNING
    case Exit(p) => 0 <= p < |s.procs| && s.procs[p].state == RUNNING
    case Reap(p) => 0 <= p < |s.procs| && s.procs[p].state == ZOMBIE
    case _ => true
  }

  function Next(s: State, e: Event): (t: State)
    requires Shape(s) && LevelsOk(s) && Enabled(s, e)
    ensures Shape(t)
  {
    match e
    case Alloc =>
      var p := FirstUnused(s.procs, 0);
      if p == NPROC then s
      else s.(procs := s.procs[p := s.procs[p].(state := EMBRYO, pid := s.nextpid, ready := false)],
              nextpid := s.nextpid + 1)
    case Init(p) => s.(procs := s.procs[p := Initialised(s.procs[p], s.ticks)])
    case Abort(p) => s.(procs := s.procs[p := s.procs[p].(state := UNUSED)])
    case Start(p) => PushBack(s.(procs := s.procs[p := s.procs[p].(state := RUNNABLE)]), p, 0)
    case Schedule => Dispatch(s)
    case Sleep(p, chan) => s.(procs := s.procs[p := s.procs[p].(state := SLEEPING, chan := chan)])
    case Wakeup(chan) => WakeFrom(s, chan, 0)
    case KillPid(pid) => Kill(s, pid)
    case Exit(p) => s.(procs := s.procs[p := s.procs[p].(state := ZOMBIE, ended := s.ticks)])
    case Reap(p) => s.(procs := s.procs[p := s.procs[p].(state := UNUSED, pid := 0, killed := false)])
    case TimerTick => Tick(s)
  }
}
