/** The priority-based scheduler of proc.c: its choice, set_priority with the counter
    reset, and why a process of the best priority is not passed over for long. */
module Pbs {
  import opened Procs

  const NONE := 1001   // min_prioirity_existing before the scan

  datatype Proc = Proc(state: PState, pid: int, priority: int, chances: int)

  type Table = t: seq<Proc> | |t| == NPROC witness seq(NPROC, _ => Proc(UNUSED, 0, 0, 0))

  // ------------------------------------------------------- the choice

  predicate Runnable(t: Table, i: int)
  {
    0 <= i < NPROC && t[i].state == RUNNABLE
  }

  /** i is RUNNABLE and no RUNNABLE process has a smaller priority number. */
  predicate Best(t: Table, i: int)
  {
    Runnable(t, i) && forall j | 0 <= j < NPROC && Runnable(t, j) :: t[i].priority <= t[j].priority
  }

  /** What the scan of the scheduler looks for: among the best, those with the most
      chances (the comparison named min goes upward). */
  predicate Eligible(t: Table, i: int)
  {
    Best(t, i) && forall j | 0 <= j < NPROC && Best(t, j) :: t[j].chances <= t[i].chances
  }

  /** Steps from start to i, going up and wrapping at NPROC. */
  function Distance(start: int, i: int): int
  {
    if i >= start then i - start else i + NPROC - start
  }

  /** The process the scheduler switches to from start. */
  predicate IsChoice(t: Table, start: int, i: int)
  {
    Eligible(t, i) && forall j | 0 <= j < NPROC && Eligible(t, j) :: Distance(start, i) <= Distance(start, j)
  }

  /** set_priority keeps priorities in 0..100; allocproc starts them at 60.  So the test of
      the smallest priority against 101 between the scans never succeeds. */
  predicate InRange(t: Table)
  {
    forall i | 0 <= i < NPROC && Runnable(t, i) :: t[i].priority <= 100
  }

  /** The two scans of scheduler(): the first eligible process in cyclic order from
      start, or -1 when nothing is RUNNABLE. */
  method Choose(t: Table, start: nat) returns (chosen: int)
    requires start < NPROC && InRange(t)
    ensures chosen == -1 <==> forall i | 0 <= i < NPROC :: !Runnable(t, i)
    ensures chosen != -1 ==> IsChoice(t, start, chosen)
  {
    var lowest, most := FirstScan(t);
    chosen := SecondScan(t, start, lowest, most);
  }

  predicate Hit(t: Table, i: int, lowest: int, most: int)
    requires 0 <= i < NPROC
  {
    t[i].state == RUNNABLE && t[i].priority == lowest && t[i].chances == most
  }

  lemma AtDistance(start: int, k: int, j: int)
    requires 0 <= start < NPROC && 0 <= k < NPROC && 0 <= j < NPROC
    ensures Distance(start, (start + k) % NPROC) == k && 0 <= Distance(start, j) < NPROC
    ensures Distance(start, j) == k ==> j == (start + k) % NPROC
  {
  }

  /** The second scan: the first process from start on that has this priority and these
      chances. */
  method SecondScan(t: Table, start: nat, lowest: int, most: int) returns (chosen: int)
    requires start < NPROC
    ensures chosen == -1 ==> forall j | 0 <= j < NPROC :: !Hit(t, j, lowest, most)
    ensures chosen != -1 ==> && 0 <= chosen < NPROC && Hit(t, chosen, lowest, most)
                             && forall j | 0 <= j < NPROC && Hit(t, j, lowest, most) ::
                                  Distance(start, chosen) <= Distance(start, j)
  {
    var i, checked := start, 0;
    while checked < NPROC
      invariant 0 <= checked <= NPROC && i == (start + checked) % NPROC
      invariant forall j | 0 <= j < NPROC && Hit(t, j, lowest, most) :: checked <= Distance(start, j)
    {
      AtDistance(start, checked, i);
      if t[i].state == RUNNABLE && t[i].priority == lowest && t[i].chances == most {
        return i;
      }
      forall j | 0 <= j < NPROC && Hit(t, j, lowest, most) ensures checked + 1 <= Distance(start, j) {
        AtDistance(start, checked, j);
      }
      i, checked := (i + 1) % NPROC, checked + 1;
    }
    forall j | 0 <= j < NPROC ensures !Hit(t, j, lowest, most) {
      AtDistance(start, 0, j);
    }
    chosen := -1;
  }

  /** The first scan: the smallest priority among the RUNNABLE, and the largest
      chances at that priority. */
  method FirstScan(t: Table) returns (lowest: int, most: int)
    requires InRange(t)
    ensures lowest <= NONE
    ensures lowest == NONE <==> forall i | 0 <= i < NPROC :: !Runnable(t, i)
    ensures forall i | 0 <= i < NPROC :: Eligible(t, i) <==> Hit(t, i, lowest, most)
    ensures lowest < NONE ==> exists i :: 0 <= i < NPROC && Eligible(t, i)
  {
    lowest, most := NONE, 147483647;
    ghost var w := 0;
    var i := 0;
    while i < NPROC
      invariant 0 <= i <= NPROC && lowest <= NONE
      invariant lowest == NONE <==> forall j | 0 <= j < i :: !Runnable(t, j)
      invariant forall j | 0 <= j < i && Runnable(t, j) ::
                  lowest <= t[j].priority && (t[j].priority == lowest ==> t[j].chances <= most)
      invariant lowest < NONE ==> 0 <= w < i && Runnable(t, w) && t[w].priority == lowest && t[w].chances == most
    {
      if t[i].state == RUNNABLE {
        assert Runnable(t, i);
        if t[i].priority < lowest {
          lowest, most, w := t[i].priority, t[i].chances, i;
        } else if t[i].priority == lowest {
          if most < t[i].chances {
            most, w := t[i].chances, i;
          }
        }
      }
      i := i + 1;
    }
    if lowest < NONE {
      assert Best(t, w);
      assert Eligible(t, w);
    }
  }

  // --------------------------------------------------- chances stay zero

  function MaxChances(t: seq<Proc>, priority: int): (m: int)
    ensures m >= 0
    ensures forall i | 0 <= i < |t| && t[i].priority == priority :: t[i].chances <= m
    ensures m == 0 || exists i :: 0 <= i < |t| && t[i].priority == priority && t[i].chances == m
  {
    if t == [] then 0
    else
      var last := t[|t| - 1];
      var m := MaxChances(t[..|t| - 1], priority);
      if last.priority == priority && last.chances > m then last.chances else m
  }

  predicate ZeroChances(t: Table)
  {
    forall i | 0 <= i < NPROC :: t[i].chances == 0
  }

  /** reset_pbs_chances from slot i on: subtract m from every process of the class,
      giving up at the first result other than 0 and 1. */
  function ResetFrom(t: Table, priority: int, m: int, i: nat): Table
    requires i <= NPROC
    decreases NPROC - i
  {
    if i == NPROC then t
    else if t[i].priority != priority then ResetFrom(t, priority, m, i + 1)
    else
      var u := t[i := t[i].(chances := t[i].chances - m)];
      if u[i].chances != 0 && u[i].chances != 1 then u else ResetFrom(u, priority, m, i + 1)
  }

  function Reset(t: Table, priority: int): Table
  {
    ResetFrom(t, priority, MaxChances(t, priority), 0)
  }

  lemma {:induction false} ResetFromZero(t: Table, priority: int, i: nat)
    requires ZeroChances(t) && i <= NPROC
    ensures ResetFrom(t, priority, 0, i) == t
    decreases NPROC - i
  {
    if i < NPROC {
      assert t[i].priority == priority ==> t[i := t[i].(chances := 0)] == t;
      ResetFromZero(t, priority, i + 1);
    }
  }

  lemma ResetZero(t: Table, priority: int)
    requires ZeroChances(t)
    ensures Reset(t, priority) == t
  {
    ResetFromZero(t, priority, 0);
  }

  function SlotFrom(t: Table, pid: int, i: nat): (k: nat)
    requires i <= NPROC
    ensures i <= k <= NPROC && (k < NPROC ==> t[k].pid == pid) && forall j | i <= j < k :: t[j].pid != pid
    decreases NPROC - i
  {
    if i == NPROC || t[i].pid == pid then i else SlotFrom(t, pid, i + 1)
  }

  /** The first slot with the pid, or NPROC. */
  function Slot(t: Table, pid: int): (k: nat)
    ensures k <= NPROC && (k < NPROC ==> t[k].pid == pid) && forall j | 0 <= j < k :: t[j].pid != pid
  {
    SlotFrom(t, pid, 0)
  }

  /** The table after a successful set_priority. */
  function Prioritised(t: Table, i: nat, priority: int): Table
    requires i < NPROC
  {
    var u := Reset(t, priority);
    u[i := u[i].(priority := priority, chances := 0)]
  }

  /** The largest counter at a priority, or 0. */
  method MostChances(t: Table, priority: int) returns (most: int)
    ensures most == MaxChances(t, priority)
  {
    most := 0;
    var i := 0;
    while i < NPROC
      invariant 0 <= i <= NPROC && most == MaxChances(t[..i], priority)
    {
      assert t[..i + 1][..i] == t[..i];
      if t[i].priority == priority && t[i].chances > most {
        most := t[i].chances;
      }
      i := i + 1;
    }
    assert t[..NPROC] == t;
  }

  class Ptable {
    var t: Table

    /** reset_pbs_chances: 0 if all counters of the priority are equal and not negative,
        otherwise -1 at the first that is not the highest. */
    method ResetChances(priority: int) returns (r: int)
      modifies this
      ensures t == Reset(old(t), priority)
      ensures r == 0 || r == -1
      ensures r == 0 <==> forall i | 0 <= i < NPROC && old(t)[i].priority == priority ::
                old(t)[i].chances == MaxChances(old(t), priority)
      ensures r == 0 ==> forall i | 0 <= i < NPROC && t[i].priority == priority :: t[i].chances == 0
      ensures forall i | 0 <= i < NPROC :: t[i] == old(t)[i].(chances := t[i].chances)
      ensures forall i | 0 <= i < NPROC && old(t)[i].priority != priority :: t[i] == old(t)[i]
    {
      var most := MostChances(t, priority);
      var i := 0;
      while i < NPROC
        invariant 0 <= i <= NPROC
        invariant ResetFrom(t, priority, most, i) == Reset(old(t), priority)
        invariant forall k | 0 <= k < NPROC :: t[k] == old(t)[k].(chances := t[k].chances)
        invariant forall k | 0 <= k < i && t[k].priority == priority :: t[k].chances == 0
        invariant forall k | 0 <= k < i && old(t)[k].priority == priority :: old(t)[k].chances == most
        invariant forall k | i <= k < NPROC :: t[k] == old(t)[k]
        invariant forall k | 0 <= k < NPROC && old(t)[k].priority != priority :: t[k] == old(t)[k]
      {
        if t[i].priority == priority {
          t := t[i := t[i].(chances := t[i].chances - most)];
          if t[i].chances != 0 && t[i].chances != 1 {
            return -1;
          }
        }
        i := i + 1;
      }
      r := 0;
    }

    /** The search of set_priority. */
    method FindSlot(pid: int) returns (i: int)
      ensures i == Slot(t, pid)
    {
      i := 0;
      while i < NPROC && t[i].pid != pid
        invariant 0 <= i <= NPROC
        invariant SlotFrom(t, pid, i) == Slot(t, pid)
      {
        i := i + 1;
      }
    }

    /** set_priority.  -4: priority out of range; -3: no such pid; -2: unused or zombie;
        otherwise the old priority. */
    method SetPriority(priority: int, pid: int) returns (r: int)
      modifies this
      ensures priority < 0 || priority > 100 ==> r == -4 && t == old(t)
      ensures 0 <= priority <= 100 && Slot(old(t), pid) == NPROC ==> r == -3 && t == old(t)
      ensures 0 <= priority <= 100 && Slot(old(t), pid) < NPROC ==>
                var i := Slot(old(t), pid);
                if old(t)[i].state == UNUSED || old(t)[i].state == ZOMBIE then r == -2 && t == old(t)
                else
                  && r == old(t)[i].priority && t == Prioritised(old(t), i, priority)
                  && t[i].priority == priority && t[i].chances == 0
                  && (forall j | 0 <= j < NPROC :: t[j].pid == old(t)[j].pid && t[j].state == old(t)[j].state)
                  && (forall j | 0 <= j < NPROC && j != i :: t[j].priority == old(t)[j].priority)
                  && (forall j | 0 <= j < NPROC && j != i && old(t)[j].priority != priority :: t[j] == old(t)[j])
    {
      if priority < 0 || priority > 100 {
        return -4;
      }
      var i := FindSlot(pid);
      if i == NPROC {
        return -3;
      }
      if t[i].state == UNUSED || t[i].state == ZOMBIE {
        return -2;
      }
      var code := ResetChances(priority);
      r := t[i].priority;
      t := t[i := t[i].(priority := priority, chances := 0)];
    }
  }

  // ------------------------------------------------------------ whole runs

  /** The process table and the start_idx of each CPU. */
  datatype State = State(t: Table, starts: seq<nat>)

  datatype Event =
    | Decide(cpu: nat, i: nat)               // a CPU's scheduler chooses slot i
    | Init(i: nat)                           // initialize_new_fields
    | Fork(i: nat)                           // the end of fork: RUNNABLE, then the reset
    | SetPrio(i: nat, priority: int)         // set_priority that finds slot i
    | Move(i: nat, state: PState, pid: int)  // sleep, wakeup, exit, wait, yield, kill, allocproc

  predicate Enabled(s: State, e: Event)
  {
    match e
    case Decide(c, i) => c < |s.starts| && s.starts[c] < NPROC && IsChoice(s.t, s.starts[c], i)
    case Init(i) => i < NPROC
    case Fork(i) => i < NPROC
    case SetPrio(i, priority) => i < NPROC && 0 <= priority <= 100 && s.t[i].state != UNUSED && s.t[i].state != ZOMBIE
    case Move(i, _, _) => i < NPROC
  }

  function Next(s: State, e: Event): State
    requires Enabled(s, e)
  {
    match e
    case Decide(c, i) =>
      s.(t := s.t[i := s.t[i].(state := RUNNING)], starts := s.starts[c := (i + 1) % NPROC])
    case Init(i) => s.(t := s.t[i := s.t[i].(priority := 60, chances := 0)])
    case Fork(i) => s.(t := Reset(s.t[i := s.t[i].(state := RUNNABLE)], s.t[i].priority))
    case SetPrio(i, priority) => s.(t := Prioritised(s.t, i, priority))
    case Move(i, state, pid) => s.(t := s.t[i := s.t[i].(state := state, pid := pid)])
  }

  ghost predicate IsRun(ss: seq<State>, es: seq<Event>)
  {
    && |ss| == |es| + 1
    && forall i | 0 <= i < |es| :: Enabled(ss[i], es[i]) && ss[i + 1] == Next(ss[i], es[i])
  }

  predicate AllInRange(t: Table)
  {
    forall i | 0 <= i < NPROC :: t[i].priority <= 100
  }

  lemma {:induction false} ResetPriorities(t: Table, priority: int, m: int, i: nat)
    requires i <= NPROC
    ensures forall j | 0 <= j < NPROC ::
              ResetFrom(t, priority, m, i)[j] == t[j].(chances := ResetFrom(t, priority, m, i)[j].chances)
    decreases NPROC - i
  {
    if i < NPROC {
      if t[i].priority != priority {
        ResetPriorities(t, priority, m, i + 1);
      } else {
        var u := t[i := t[i].(chances := t[i].chances - m)];
        ResetPriorities(u, priority, m, i + 1);
      }
    }
  }

  lemma StepKeepsRange(s: State, e: Event)
    requires AllInRange(s.t) && Enabled(s, e)
    ensures AllInRange(Next(s, e).t)
  {
    match e
    case Fork(i) =>
      var u := s.t[i := s.t[i].(state := RUNNABLE)];
      ResetPriorities(u, s.t[i].priority, MaxChances(u, s.t[i].priority), 0);
    case SetPrio(i, priority) => ResetPriorities(s.t, priority, MaxChances(s.t, priority), 0);
    case _ =>
  }

  /** Priorities stay within what the scans of the scheduler can tell apart. */
  lemma {:induction false} PrioritiesInRange(ss: seq<State>, es: seq<Event>, k: nat)
    requires IsRun(ss, es) && AllInRange(ss[0].t) && k <= |es|
    ensures AllInRange(ss[k].t) && InRange(ss[k].t)
  {
    if k > 0 {
      PrioritiesInRange(ss, es, k - 1);
      StepKeepsRange(ss[k - 1], es[k - 1]);
    }
  }

  lemma PrioritisedIs(t: Table, i: nat, priority: int)
    requires i < NPROC
    ensures var u := Prioritised(t, i, priority);
            && u[i] == t[i].(priority := priority, chances := 0)
            && forall j | 0 <= j < NPROC && j != i :: u[j] == t[j].(chances := u[j].chances)
  {
    ResetPriorities(t, priority, MaxChances(t, priority), 0);
  }

  /** A RUNNABLE process below all others is what every scan chooses, wherever it starts. */
  lemma PreferredChosen(t: Table, start: nat, i: int)
    requires start < NPROC && Runnable(t, i)
    requires forall j | 0 <= j < NPROC && j != i && Runnable(t, j) :: t[i].priority < t[j].priority
    ensures forall k | 0 <= k < NPROC :: IsChoice(t, start, k) <==> k == i
  {
    assert Best(t, i) && Eligible(t, i);
    forall j | 0 <= j < NPROC && Eligible(t, j) ensures j == i {
    }
  }

  /** set_priority takes effect at once: a RUNNABLE process that is given a number below those
      of all others that are RUNNABLE is the next that any CPU chooses. */
  lemma RaisedIsNext(s: State, i: nat, priority: int, cpu: nat, k: nat)
    requires Enabled(s, SetPrio(i, priority)) && s.t[i].state == RUNNABLE
    requires forall j | 0 <= j < NPROC && j != i && Runnable(s.t, j) :: priority < s.t[j].priority
    requires cpu < |s.starts| && s.starts[cpu] < NPROC
    ensures Enabled(Next(s, SetPrio(i, priority)), Decide(cpu, k)) <==> k == i
  {
    var t := Prioritised(s.t, i, priority);
    PrioritisedIs(s.t, i, priority);
    forall j | 0 <= j < NPROC && j != i && Runnable(t, j) ensures t[i].priority < t[j].priority {
      assert Runnable(s.t, j);
    }
    PreferredChosen(t, s.starts[cpu], i);
  }

  lemma StepKeepsSixty(s: State, e: Event)
    requires Enabled(s, e) && !e.SetPrio? && forall i | 0 <= i < NPROC :: s.t[i].priority == 60
    ensures forall i | 0 <= i < NPROC :: Next(s, e).t[i].priority == 60
  {
    if e.Fork? {
      var u := s.t[e.i := s.t[e.i].(state := RUNNABLE)];
      ResetPriorities(u, 60, MaxChances(u, 60), 0);
    }
  }

  /** Without set_priority every process has priority 60, so any that is RUNNABLE is a best one:
      the scheduler is then round robin. */
  lemma {:induction false} RoundRobinByDefault(ss: seq<State>, es: seq<Event>, k: nat)
    requires IsRun(ss, es) && k <= |es| && forall i | 0 <= i < NPROC :: ss[0].t[i].priority == 60
    requires forall i | 0 <= i < |es| :: !es[i].SetPrio?
    ensures forall i | 0 <= i < NPROC :: ss[k].t[i].priority == 60 && (Best(ss[k].t, i) <==> Runnable(ss[k].t, i))
  {
    if k > 0 {
      RoundRobinByDefault(ss, es, k - 1);
      StepKeepsSixty(ss[k - 1], es[k - 1]);
    }
  }

  /** What Choose finds is the one choice that Decide admits. */
  lemma ChoiceUnique(t: Table, start: nat, i: int, j: int)
    requires start < NPROC && IsChoice(t, start, i) && IsChoice(t, start, j)
    ensures i == j
  {
    AtDistance(start, Distance(start, i), j);
    AtDistance(start, Distance(start, i), i);
  }

  lemma StepKeepsZero(s: State, e: Event)
    requires ZeroChances(s.t) && Enabled(s, e)
    ensures ZeroChances(Next(s, e).t)
  {
    match e
    case Fork(i) => ResetZero(s.t[i := s.t[i].(state := RUNNABLE)], s.t[i].priority);
    case SetPrio(i, priority) => ResetZero(s.t, priority);
    case _ =>
  }

  /** pbs_chances is zero in every reachable state. */
  lemma {:induction false} ChancesAlwaysZero(ss: seq<State>, es: seq<Event>, k: nat)
    requires IsRun(ss, es) && ZeroChances(ss[0].t) && k <= |es|
    ensures ZeroChances(ss[k].t)
  {
    if k > 0 {
      ChancesAlwaysZero(ss, es, k - 1);
      StepKeepsZero(ss[k - 1], es[k - 1]);
    }
  }

  /** How many decisions a CPU takes in the first k events. */
  function Decisions(es: seq<Event>, cpu: nat, k: nat): nat
    requires k <= |es|
  {
    if k == 0 then 0
    else Decisions(es, cpu, k - 1) + if es[k - 1].Decide? && es[k - 1].cpu == cpu then 1 else 0
  }

  /** Passing over a best process brings start_idx closer to it. */
  lemma PassedOver(t: Table, start: nat, i: int, p: int)
    requires start < NPROC && ZeroChances(t) && IsChoice(t, start, i) && Best(t, p) && i != p
    ensures 0 <= Distance((i + 1) % NPROC, p) < Distance(start, p)
  {
    assert Eligible(t, p);
    assert Distance(start, i) <= Distance(start, p);
  }

  /** As long as p is a best process whenever the CPU decides, and is not the one
      chosen, the decisions taken are paid for by the distance left to p. */
  lemma {:induction false} DistancePays(ss: seq<State>, es: seq<Event>, cpu: nat, p: int, k: nat)
    requires IsRun(ss, es) && ZeroChances(ss[0].t) && 0 <= p < NPROC
    requires cpu < |ss[0].starts| && ss[0].starts[cpu] < NPROC && k <= |es|
    requires forall i | 0 <= i < k && es[i].Decide? && es[i].cpu == cpu :: Best(ss[i].t, p) && es[i].i != p
    ensures cpu < |ss[k].starts| && ss[k].starts[cpu] < NPROC
    ensures Decisions(es, cpu, k) + Distance(ss[k].starts[cpu], p) <= Distance(ss[0].starts[cpu], p)
  {
    if k > 0 {
      DistancePays(ss, es, cpu, p, k - 1);
      ChancesAlwaysZero(ss, es, k - 1);
      DecideStep(ss[k - 1], es[k - 1], cpu, p);
    }
  }

  /** One step's part of that account. */
  lemma DecideStep(s: State, e: Event, cpu: nat, p: int)
    requires ZeroChances(s.t) && Enabled(s, e) && 0 <= p < NPROC && cpu < |s.starts| && s.starts[cpu] < NPROC
    requires e.Decide? && e.cpu == cpu ==> Best(s.t, p) && e.i != p
    ensures var t := Next(s, e);
            && |t.starts| == |s.starts| && t.starts[cpu] < NPROC
            && (if e.Decide? && e.cpu == cpu then 1 else 0) + Distance(t.starts[cpu], p) <= Distance(s.starts[cpu], p)
  {
    if e.Decide? && e.cpu == cpu {
      PassedOver(s.t, s.starts[cpu], e.i, p);
    }
  }

  /** Fairness: in any run, if p is RUNNABLE at the best priority at every decision of a
      CPU and the CPU decides NPROC times, it chooses p at one of them. */
  lemma ChosenWithinNproc(ss: seq<State>, es: seq<Event>, cpu: nat, p: int)
    requires IsRun(ss, es) && ZeroChances(ss[0].t) && 0 <= p < NPROC
    requires cpu < |ss[0].starts| && ss[0].starts[cpu] < NPROC
    requires forall i | 0 <= i < |es| && es[i].Decide? && es[i].cpu == cpu :: Best(ss[i].t, p)
    requires Decisions(es, cpu, |es|) >= NPROC
    ensures exists i :: 0 <= i < |es| && es[i] == Decide(cpu, p)
  {
    if forall i | 0 <= i < |es| :: es[i] != Decide(cpu, p) {
      DistancePays(ss, es, cpu, p, |es|);
    }
  }
}
