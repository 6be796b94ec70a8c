/** The queues of proc.c as the arrays they are. */
module MlfqQueue {
  import opened Procs
  import opened Mlfq

  /** One row of queue_ptr with its q_latest_idx. */
  class Queue {
    const slots: array<int>
    var latest: int

    ghost predicate Valid()
      reads this, slots
    {
      slots.Length == QUEUE_SLOTS && -1 <= latest < QUEUE_SLOTS
    }

    ghost function Contents(): (q: seq<int>)
      requires Valid()
      reads this, slots
      ensures |q| == latest + 1
    {
      slots[..latest + 1]
    }

    constructor ()
      ensures Valid() && Contents() == [] && fresh(slots)
    {
      slots := new int[QUEUE_SLOTS];
      latest := -1;
    }

    /** push_back_process: the duplicate scan stops before the last slot in use. */
    method PushBackProcess(procs: seq<Proc>, p: int) returns (r: int)
      requires Valid() && latest < QUEUE_SLOTS - 1 && 0 <= p < |procs|
      requires forall k | 0 <= k < |Contents()| :: 0 <= Contents()[k] < |procs|
      modifies this, slots
      ensures Valid()
      ensures r == if FindPid(procs, old(Contents()), procs[p].pid, 0) < |old(Contents())| - 1 then -1 else 1
      ensures Contents() == if r == -1 then old(Contents()) else old(Contents()) + [p]
    {
      ghost var q := Contents();
      var i := 0;
      while i < latest
        invariant 0 <= i && (i == 0 || i <= latest)
        invariant forall k | 0 <= k < i :: procs[q[k]].pid != procs[p].pid
      {
        assert q[i] == slots[i];
        if procs[p].pid == procs[slots[i]].pid {
          return -1;
        }
        i := i + 1;
      }
      latest := latest + 1;
      slots[latest] := p;
      assert Contents() == q + [p];
      r := 1;
    }

    /** delete_process: find by pid, shift the rest down. */
    method DeleteProcess(procs: seq<Proc>, p: int) returns (r: int)
      requires Valid() && 0 <= p < |procs|
      requires forall k | 0 <= k < |Contents()| :: 0 <= Contents()[k] < |procs|
      modifies this, slots
      ensures Valid()
      ensures var k := FindPid(procs, old(Contents()), procs[p].pid, 0);
              && Contents() == Remove(old(Contents()), k)
              && r == if k < |old(Contents())| then 1 else 0
    {
      ghost var q := Contents();
      var i := 0;
      while i <= latest && procs[slots[i]].pid != procs[p].pid
        invariant 0 <= i <= latest + 1
        invariant forall k | 0 <= k < i :: procs[q[k]].pid != procs[p].pid
        invariant i <= latest ==> q[i] == slots[i]
      {
        i := i + 1;
      }
      assert i == FindPid(procs, q, procs[p].pid, 0);
      if i > latest {
        return 0;
      }
      ShiftDown(i);
      r := 1;
    }

    /** Moves the slots behind i down by one. */
    method ShiftDown(i: int)
      requires Valid() && 0 <= i <= latest
      modifies this, slots
      ensures Valid() && Contents() == Remove(old(Contents()), i)
    {
      ghost var q := Contents();
      var j := i;
      while j < latest
        invariant i <= j <= latest < slots.Length
        invariant latest == old(latest)
        invariant forall k | 0 <= k < i || j <= k <= latest :: slots[k] == q[k]
        invariant forall k | i <= k < j :: slots[k] == q[k + 1]
      {
        slots[j] := slots[j + 1];
        j := j + 1;
      }
      slots[latest] := -1;
      latest := latest - 1;
      assert Contents() == q[..i] + q[i + 1..];
    }
  }
}
