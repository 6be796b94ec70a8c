/** kalloc.c and the page-table half of vm.c, in place on physical memory. */
module VmKernel {
  import opened Common
  import opened VmTables

  // ---------------------------------------------------------- free list

  /** The word stored in a free frame for its successor; 0 ends the list. */
  function Link(f: int): int
  {
    if f == 0 then 0 else KERNBASE + f * PGSIZE
  }

  function First(free: seq<int>): int
  {
    if free == [] then 0 else free[0]
  }

  ghost predicate Chained(lo: int, mem: seq<Page>, head: int, free: seq<int>)
  {
    && 0 < lo && |mem| == NFRAMES && head == First(free)
    && (forall k | 0 <= k < |free| :: Managed(lo, free[k]))
    && (forall k, l | 0 <= k < l < |free| :: free[k] != free[l])
    && (forall k | 0 <= k < |free| :: mem[free[k]][0] == Link(First(free[k + 1..])))
  }

  ghost function All(free: seq<int>): set<int>
  {
    set f | f in free
  }

  lemma ChainTail(lo: int, mem: seq<Page>, head: int, free: seq<int>)
    requires Chained(lo, mem, head, free) && free != []
    ensures Chained(lo, mem, First(free[1..]), free[1..]) && mem[head][0] == Link(First(free[1..]))
    ensures head !in free[1..] && All(free) == All(free[1..]) + {head}
  {
    var rest := free[1..];
    forall k | 0 <= k < |rest| ensures mem[rest[k]][0] == Link(First(rest[k + 1..])) {
      assert rest[k] == free[k + 1] && rest[k + 1..] == free[k + 2..];
    }
  }

  lemma ChainPush(lo: int, mem: seq<Page>, head: int, free: seq<int>, f: int, p: Page)
    requires Chained(lo, mem, head, free) && Managed(lo, f) && f !in free && p[0] == Link(head)
    ensures Chained(lo, mem[f := p], f, [f] + free) && All([f] + free) == All(free) + {f}
  {
    var free' := [f] + free;
    forall k | 0 <= k < |free'| ensures mem[f := p][free'[k]][0] == Link(First(free'[k + 1..])) {
      if k == 0 {
        assert free'[1..] == free;
      } else {
        assert free'[k] == free[k - 1] && free'[k + 1..] == free[k..];
      }
    }
  }

  lemma ChainFrame(lo: int, mem: seq<Page>, mem': seq<Page>, head: int, free: seq<int>)
    requires Chained(lo, mem, head, free) && |mem'| == |mem| && forall f | f in free :: mem'[f] == mem[f]
    ensures Chained(lo, mem', head, free)
  {
  }

  /** A page that is freed twice closes the list to a circle. */
  lemma DoubleFree(lo: int, mem: seq<Page>, head: int, free: seq<int>, f: int, fs: seq<int>)
    requires Chained(lo, mem, head, free) && f in free
    ensures !Chained(lo, mem[f := Junk(head)], f, fs)
  {
    if Chained(lo, mem[f := Junk(head)], f, fs) {
      var j :| 0 <= j < |free| && free[j] == f;
      Circle(lo, mem, head, free, j, fs, j);
    }
  }

  lemma {:induction false} Circle(lo: int, mem: seq<Page>, head: int, free: seq<int>, j: int, fs: seq<int>, k: int)
    requires Chained(lo, mem, head, free) && 0 <= k <= j < |free|
             && Chained(lo, mem[free[j] := Junk(head)], free[j], fs)
    ensures k + 1 < |fs| && fs[k + 1] == free[k]
    decreases k
  {
    var mem' := mem[free[j] := Junk(head)];
    if k > 0 {
      Circle(lo, mem, head, free, j, fs, k - 1);
      assert mem'[fs[k]][0] == Link(First(fs[k + 1..]));
      assert free[k - 1] != free[j] && mem[free[k - 1]][0] == Link(First(free[k..]));
    } else {
      assert fs != [] && fs[0] == free[j];
      assert mem'[fs[0]][0] == Link(First(fs[1..]));
    }
    assert First(fs[k + 1..]) == free[k];
  }

  /** A frame as kfree leaves it. */
  function Junk(next: int): Page
  {
    Filled(0x01010101)[0 := Link(next)]
  }

  // ------------------------------------------------------- conservation

  /** pool is shared out without overlap: free frames, frames of the address space d, and
      frames the kernel holds for the moment. */
  ghost predicate Balanced(lo: int, mem: seq<Page>, free: seq<int>, d: int, extra: set<int>, pool: set<int>)
  {
    && Space(lo, mem, d)
    && All(free) !! Own(lo, mem, d) && All(free) !! extra && extra !! Own(lo, mem, d)
    && pool == All(free) + Own(lo, mem, d) + extra
    && forall f | f in extra :: Managed(lo, f)
  }

  ghost predicate Inner(mem: seq<Page>, d: int, f: int)
  {
    |mem| == NFRAMES && 0 <= d < NFRAMES && (f == d || IsTable(mem, d, f))
  }

  /** From the first state to the second frames were only taken from the free list, and
      only they and the directory and tables of d were written. */
  ghost predicate Grows(mem: seq<Page>, free: seq<int>, mem': seq<Page>, free': seq<int>, d: int)
  {
    && |mem| == |mem'| == NFRAMES && All(free') <= All(free)
    && (forall f | 0 <= f < NFRAMES && Inner(mem', d, f) :: Inner(mem, d, f) || f in free)
    && (forall f | 0 <= f < NFRAMES && f !in free && !Inner(mem, d, f) :: mem'[f] == mem[f])
  }

  lemma GrowsGrows(mem: seq<Page>, free: seq<int>, mem1: seq<Page>, free1: seq<int>, mem2: seq<Page>, free2: seq<int>,
                   d: int)
    requires Grows(mem, free, mem1, free1, d) && Grows(mem1, free1, mem2, free2, d)
    ensures Grows(mem, free, mem2, free2, d)
  {
    forall f | f in free1 ensures f in free {
      assert f in All(free1);
    }
  }

  lemma TableGrows(mem: seq<Page>, free: seq<int>, free': seq<int>, d: int, i: int, t: int)
    requires |mem| == NFRAMES && 0 <= d < NFRAMES && 0 <= i < NPT && t in free && 0 < t < NFRAMES
             && All(free') <= All(free)
    requires Table(mem, d, i) == 0
    ensures Grows(mem, free, WithTable(mem, d, i, t), free', d)
  {
    var mem' := WithTable(mem, d, i, t);
    PteFields(t, 6);
    forall f | 0 <= f < NFRAMES && IsTable(mem', d, f) ensures Inner(mem, d, f) || f in free {
      var j :| 0 <= j < NPT && Table(mem', d, j) == f;
      if j != i {
        assert Table(mem, d, j) == f;
      }
    }
  }

  lemma EntryGrows(lo: int, mem: seq<Page>, free: seq<int>, d: int, t: int, v: int, w: int)
    requires TablesOk(lo, mem, d) && 0 <= v < ALLPAGES && t == Table(mem, d, v / NPT) != 0
    ensures Grows(mem, free, WithEntry(mem, t, v, w), free, d)
  {
    EntrySet(lo, mem, d, t, v, w);
    assert IsTable(mem, d, t);
    forall f ensures IsTable(WithEntry(mem, t, v, w), d, f) == IsTable(mem, d, f) {
      TableSame(mem, WithEntry(mem, t, v, w), d, f);
    }
  }

  lemma InnerOwned(lo: int, mem: seq<Page>, d: int, i: int)
    requires TablesOk(lo, mem, d) && 0 <= i < NPT
    ensures d in Own(lo, mem, d)
    ensures Table(mem, d, i) != 0 ==> Managed(lo, Table(mem, d, i)) && Table(mem, d, i) in Own(lo, mem, d)
  {
    assert Table(mem, d, i) != 0 ==> IsTable(mem, d, Table(mem, d, i));
  }

  /** The entries of pages first .. end - 1 now name the frames from f on. */
  ghost predicate EntriesSet(mem: seq<Page>, mem': seq<Page>, d: int, first: int, end: int, f: int, perm: int)
  {
    && |mem| == |mem'| && 0 <= d < |mem|
    && forall u | 0 <= u < ALLPAGES ::
         Entry(mem', d, u) == if first <= u < end then Pte(f + (u - first), perm) else Entry(mem, d, u)
  }

  /** From the first state to the second frames were only given back, and only they and the
      tables of d were written. */
  ghost predicate Shrinks(mem: seq<Page>, free: seq<int>, mem': seq<Page>, free': seq<int>, d: int)
  {
    && |mem| == |mem'| == NFRAMES && 0 <= d < NFRAMES && All(free) <= All(free') && mem'[d] == mem[d]
    && (forall f | 0 <= f < NFRAMES && f !in free' && !Inner(mem, d, f) :: mem'[f] == mem[f])
  }

  lemma InnerSame(mem: seq<Page>, mem': seq<Page>, d: int, f: int)
    requires |mem| == |mem'| == NFRAMES && 0 <= d < NFRAMES && mem'[d] == mem[d]
    ensures Inner(mem', d, f) == Inner(mem, d, f)
  {
    TableSame(mem, mem', d, f);
  }

  lemma ShrinksShrinks(mem: seq<Page>, free: seq<int>, mem1: seq<Page>, free1: seq<int>, mem2: seq<Page>,
                       free2: seq<int>, d: int)
    requires Shrinks(mem, free, mem1, free1, d) && Shrinks(mem1, free1, mem2, free2, d)
    ensures Shrinks(mem, free, mem2, free2, d)
  {
    forall f | 0 <= f < NFRAMES && f !in free2 && !Inner(mem, d, f) ensures mem2[f] == mem[f] {
      InnerSame(mem, mem1, d, f);
      assert f !in All(free2);
      assert f !in free1;
    }
  }

  /** The present entries of pages from .. to - 1 are gone. */
  ghost predicate EntriesGone(mem: seq<Page>, mem': seq<Page>, d: int, from: int, to: int)
  {
    && |mem| == |mem'| && 0 <= d < |mem|
    && forall u | 0 <= u < ALLPAGES ::
         Entry(mem', d, u) == if from <= u < to && Present(Entry(mem, d, u)) then 0 else Entry(mem, d, u)
  }

  lemma GoneNone(mem: seq<Page>, d: int, from: int, to: int)
    requires 0 <= d < |mem|
    ensures EntriesGone(mem, mem, d, from, Min(from, to))
  {
  }

  lemma GoneGone(mem: seq<Page>, mem1: seq<Page>, mem2: seq<Page>, d: int, from: int, v: int, to: int)
    requires EntriesGone(mem, mem1, d, from, v) && EntriesGone(mem1, mem2, d, v, to) && from <= v <= to
    ensures EntriesGone(mem, mem2, d, from, to)
  {
  }

  /** kfree of user page v before its entry is cleared, as in deallocuvm. */
  lemma UnmapBalanced(lo: int, mem: seq<Page>, free: seq<int>, d: int, t: int, v: int, p: Page, extra: set<int>,
                      pool: set<int>)
    requires Balanced(lo, mem, free, d, extra, pool) && 0 <= v < USERPAGES && t == Table(mem, d, v / NPT) != 0
    requires Present(Entry(mem, d, v))
    ensures Managed(lo, Frame(Entry(mem, d, v))) && Managed(lo, t) && d !in free && t !in free
    ensures var f := Frame(Entry(mem, d, v));
            var mem' := WithEntry(mem[f := p], t, v, 0);
            && f !in free && f != t && Balanced(lo, mem', [f] + free, d, extra, pool)
            && mem' == WithEntry(mem, t, v, 0)[f := p] && mem'[d] == mem[d]
            && (forall u | 0 <= u < ALLPAGES :: Entry(mem', d, u) == if u == v then 0 else Entry(mem, d, u))
  {
    var f, m := Frame(Entry(mem, d, v)), WithEntry(mem, t, v, 0);
    InnerOwned(lo, mem, d, v / NPT);
    PageUnmapped(lo, mem, d, t, v);
    EntrySet(lo, mem, d, t, v, 0);
    assert f != t by {
      assert IsTable(mem, d, t);
    }
    assert WithEntry(mem[f := p], t, v, 0) == m[f := p];
    SpaceFrame(lo, m, m[f := p], d);
    assert All([f] + free) == All(free) + {f};
  }

  lemma NoTable(mem: seq<Page>, d: int, v: int)
    requires 0 <= d < |mem| && 0 <= v < ALLPAGES && !Present(mem[d][v / NPT])
    ensures forall u | v <= u < (v / NPT + 1) * NPT :: 0 <= u < ALLPAGES && Entry(mem, d, u) == 0
  {
    forall u | v <= u < (v / NPT + 1) * NPT ensures 0 <= u < ALLPAGES && Entry(mem, d, u) == 0 {
      assert u / NPT == v / NPT;
    }
  }

  /** The page tables named from entry i of a directory on. */
  ghost function Later(pd: Page, i: int): set<int>
    requires 0 <= i <= NPT
  {
    set j | i <= j < NPT && Present(pd[j]) :: Frame(pd[j])
  }

  /** The pool falls into the free frames, the tables left, the directory and extra. */
  ghost predicate Parts(pool: set<int>, free: set<int>, later: set<int>, d: int, extra: set<int>)
  {
    pool == free + later + {d} + extra && free !! later !! {d} !! extra
  }

  lemma PartsMove(pool: set<int>, free: set<int>, later: set<int>, d: int, extra: set<int>, f: int)
    requires Parts(pool, free, later, d, extra) && f in later
    ensures Parts(pool, free + {f}, later - {f}, d, extra) && f !in free && f != d
  {
  }

  lemma LaterStep(lo: int, mem: seq<Page>, d: int, i: int)
    requires TablesOk(lo, mem, d) && 0 <= i < NPT
    ensures Present(mem[d][i]) ==> Managed(lo, Frame(mem[d][i])) && Frame(mem[d][i]) in Later(mem[d], i)
    ensures Later(mem[d], i + 1) == if Present(mem[d][i]) then Later(mem[d], i) - {Frame(mem[d][i])}
            else Later(mem[d], i)
  {
    assert forall j | 0 <= j < NPT && Present(mem[d][j]) :: Table(mem, d, j) == Frame(mem[d][j]);
  }

  /** With no user page left, the directory and its tables are all that is owned. */
  lemma OwnBare(lo: int, mem: seq<Page>, d: int)
    requires Space(lo, mem, d) && forall v | 0 <= v < USERPAGES :: !Present(Entry(mem, d, v))
    ensures Own(lo, mem, d) == Later(mem[d], 0) + {d} && d !in Later(mem[d], 0)
  {
    forall f | 0 < f ensures !IsUser(mem, d, f) && (IsTable(mem, d, f) <==> f in Later(mem[d], 0)) {
      if f in Later(mem[d], 0) {
        var j :| 0 <= j < NPT && Present(mem[d][j]) && Frame(mem[d][j]) == f;
        assert Table(mem, d, j) == f;
      }
    }
    forall f | f in Later(mem[d], 0) ensures Managed(lo, f) && f != d {
      var j :| 0 <= j < NPT && Present(mem[d][j]) && Frame(mem[d][j]) == f;
    }
  }

  lemma FreevmOutside(lo: int, mem: seq<Page>, free: seq<int>, d: int, extra: set<int>, pool: set<int>, f: int,
                      after: set<int>)
    requires Balanced(lo, mem, free, d, extra, pool) && after !! extra && after + extra == pool && f !in after
    ensures !Inner(mem, d, f) && f !in free
  {
    InnerInOwn(lo, mem, d, f);
    assert f !in Own(lo, mem, d) && f !in All(free);
  }

  lemma InnerInOwn(lo: int, mem: seq<Page>, d: int, f: int)
    requires Space(lo, mem, d)
    ensures Inner(mem, d, f) ==> f in Own(lo, mem, d)
  {
    if Inner(mem, d, f) && f != d {
      var i :| 0 <= i < NPT && Table(mem, d, i) == f;
      InnerOwned(lo, mem, d, i);
    }
  }

  /** An address space made of frames from a pool writes nothing outside it. */
  lemma GrowsInside(lo: int, pool: seq<int>, mem: seq<Page>, free: seq<int>, mem': seq<Page>, free': seq<int>, d: int)
    requires Balanced(lo, mem, free, d, {}, All(pool)) && Grows(mem, free, mem', free', d)
    ensures forall f | 0 <= f < NFRAMES && f !in pool :: mem'[f] == mem[f]
  {
    forall f | 0 <= f < NFRAMES && f !in pool ensures mem'[f] == mem[f] {
      assert f !in All(pool);
      assert d in Own(lo, mem, d);
      assert f !in All(free);
    }
  }

  // ----------------------------------------------------- kernel mappings

  /** A row of kmap; data is the address of the kernel's data. */
  datatype Kmap = Kmap(virt: int, start: int, end: int, perm: int)

  predicate KernelData(data: int)
  {
    KERNBASE + 0x100000 < data < KERNBASE + NFRAMES * PGSIZE && data % PGSIZE == 0
  }

  function KmapRow(data: int, k: int): Kmap
  {
    if k == 0 then Kmap(KERNBASE, 0, 0x100000, 2)
    else if k == 1 then Kmap(KERNBASE + 0x100000, 0x100000, data - KERNBASE, 0)
    else if k == 2 then Kmap(data, data - KERNBASE, NFRAMES * PGSIZE, 2)
    else Kmap(0xFE000000, 0xFE000000, 0, 2)
  }

  /** What every page directory maps at page u: the low physical memory from KERNBASE on,
      read-only between the kernel's start and its data, and the devices. */
  function KernelEntry(data: int, u: int): int
  {
    if USERPAGES <= u < USERPAGES + NFRAMES then
      Pte(u - USERPAGES, if USERPAGES + 0x100 <= u < data / PGSIZE then 0 else 2)
    else if 0xFE000 <= u < ALLPAGES then Pte(u, 2)
    else 0
  }

  /** The first page that rows k, k + 1, ... map. */
  function RowStart(data: int, k: int): int
  {
    if k == 4 then ALLPAGES else KmapRow(data, k).virt / PGSIZE
  }

  /** The size passed to mappages, as a 32-bit difference. */
  function RowSize(data: int, k: int): int
  {
    (KmapRow(data, k).end - KmapRow(data, k).start) % 0x1_0000_0000
  }

  lemma RowOk(data: int, k: int)
    requires KernelData(data) && 0 <= k < 4
    ensures var r := KmapRow(data, k);
            && USERPAGES <= r.virt / PGSIZE && 0 < RowSize(data, k) && r.virt + RowSize(data, k) <= ALLPAGES * PGSIZE
            && r.start % PGSIZE == 0 && 0 <= r.perm < PGSIZE
            && r.virt / PGSIZE <= (r.virt + RowSize(data, k) - 1) / PGSIZE < RowStart(data, k + 1)
            && (forall u | 0 <= u < RowStart(data, k + 1) && u >= RowStart(data, k) ::
                  KernelEntry(data, u) == if u <= (r.virt + RowSize(data, k) - 1) / PGSIZE
                                          then Pte(r.start / PGSIZE + (u - r.virt / PGSIZE), r.perm) else 0)
  {
  }

  ghost predicate KernelMapped4(mem: seq<Page>, d: int, data: int, k: int)
  {
    0 <= d < |mem|
      && forall u | 0 <= u < ALLPAGES :: Entry(mem, d, u) == if u < RowStart(data, k) then KernelEntry(data, u) else 0
  }

  /** What a new directory gives the processor: page u of the kernel part is physical page
      u - USERPAGES, up to PHYSTOP, or itself among the devices; no user program may touch it,
      and the kernel may write all of it but its own text. */
  lemma KernelAccess(lo: int, mem: seq<Page>, d: int, data: int, u: int)
    requires Space(lo, mem, d) && KernelMapped4(mem, d, data, 4) && KernelData(data) && 0 <= u < ALLPAGES
    ensures Reached(mem, d, u) <==> 0x80000 <= u < 0x8E000 || 0xFE000 <= u
    ensures 0x80000 <= u < 0x8E000 ==> Frame(Entry(mem, d, u)) == u - 0x80000
    ensures 0xFE000 <= u ==> Frame(Entry(mem, d, u)) == u
    ensures !UserReads(mem, d, u)
    ensures Reached(mem, d, u) ==> (Writes(mem, d, u) <==> !(KERNBASE + 0x100000 <= u * PGSIZE < data))
  {
    AccessIs(lo, mem, d, u);
    assert Entry(mem, d, u) == KernelEntry(data, u);
    PteFields(u - USERPAGES, 0);
    PteFields(u - USERPAGES, 2);
    PteFields(u, 2);
    PteBits(u - USERPAGES, 0);
    PteBits(u - USERPAGES, 2);
    PteBits(u, 2);
    PageBound(u, data);
  }

  lemma PageBound(u: int, data: int)
    requires data % PGSIZE == 0
    ensures u < data / PGSIZE <==> u * PGSIZE < data
    ensures 0x80100 <= u <==> KERNBASE + 0x100000 <= u * PGSIZE
  {
    assert data == data / PGSIZE * PGSIZE;
  }

  lemma NewDirectory(lo: int, mem: seq<Page>, d: int, data: int)
    requires |mem| == NFRAMES && Managed(lo, d)
    ensures var mem' := mem[d := Filled(0)];
            && Space(lo, mem', d) && Own(lo, mem', d) == {d} && KernelMapped4(mem', d, data, 0)
  {
    var mem' := mem[d := Filled(0)];
    assert forall i | 0 <= i < NPT :: Table(mem', d, i) == 0;
    assert forall v | 0 <= v < ALLPAGES :: Entry(mem', d, v) == 0;
  }

  lemma RowMapped(mem: seq<Page>, mem': seq<Page>, d: int, data: int, k: int)
    requires KernelData(data) && 0 <= k < 4 && KernelMapped4(mem, d, data, k)
    requires var r := KmapRow(data, k);
             EntriesSet(mem, mem', d, r.virt / PGSIZE, (r.virt + RowSize(data, k) - 1) / PGSIZE + 1,
                        r.start / PGSIZE, r.perm)
    ensures KernelMapped4(mem', d, data, k + 1)
  {
    RowOk(data, k);
  }

  // ------------------------------------------------------- user pages

  /** User pages mapped before are mapped as before, with the same contents. */
  ghost predicate UsersKept(mem: seq<Page>, mem': seq<Page>, d: int)
  {
    && |mem| == |mem'| == NFRAMES && 0 <= d < NFRAMES
    && forall u | 0 <= u < USERPAGES && Present(Entry(mem, d, u)) ::
         && Entry(mem', d, u) == Entry(mem, d, u)
         && (0 <= User(mem, d, u) < NFRAMES ==> mem'[User(mem, d, u)] == mem[User(mem, d, u)])
  }

  ghost predicate OutsideKept(mem: seq<Page>, mem': seq<Page>, pool: set<int>)
  {
    |mem| == |mem'| == NFRAMES && forall f | 0 <= f < NFRAMES && f !in pool :: mem'[f] == mem[f]
  }

  lemma FrameTaken(lo: int, mem: seq<Page>, free: seq<int>, free': seq<int>, d: int, f: int, pool: set<int>)
    requires Balanced(lo, mem, free, d, {}, pool) && Managed(lo, f) && f !in free' && All(free) == All(free') + {f}
    ensures Balanced(lo, mem, free', d, {f}, pool)
  {
  }

  lemma FrameGiven(lo: int, mem: seq<Page>, free: seq<int>, d: int, f: int, p: Page, pool: set<int>)
    requires Balanced(lo, mem, free, d, {f}, pool)
    ensures Balanced(lo, mem[f := p], [f] + free, d, {}, pool)
    ensures forall u | 0 <= u < ALLPAGES :: Entry(mem[f := p], d, u) == Entry(mem, d, u)
    ensures UsersKept(mem, mem[f := p], d)
  {
    FrameFilled(lo, mem, free, d, f, p, pool);
    assert All([f] + free) == All(free) + {f};
  }

  lemma FrameFilled(lo: int, mem: seq<Page>, free: seq<int>, d: int, f: int, p: Page, pool: set<int>)
    requires Balanced(lo, mem, free, d, {f}, pool)
    ensures Balanced(lo, mem[f := p], free, d, {f}, pool)
    ensures forall u | 0 <= u < ALLPAGES :: Entry(mem[f := p], d, u) == Entry(mem, d, u)
    ensures UsersKept(mem, mem[f := p], d)
  {
    SpaceFrame(lo, mem, mem[f := p], d);
    forall u | 0 <= u < USERPAGES && Present(Entry(mem, d, u)) ensures User(mem, d, u) != f {
      UserOwned(lo, mem, d, u);
    }
  }

  lemma UserOwned(lo: int, mem: seq<Page>, d: int, u: int)
    requires Space(lo, mem, d) && 0 <= u < USERPAGES && Present(Entry(mem, d, u))
    ensures Managed(lo, User(mem, d, u)) && User(mem, d, u) in Own(lo, mem, d) && !Inner(mem, d, User(mem, d, u))
  {
    assert IsUser(mem, d, User(mem, d, u));
  }

  lemma InnerInPool(lo: int, mem: seq<Page>, free: seq<int>, d: int, extra: set<int>, pool: set<int>, f: int)
    requires Balanced(lo, mem, free, d, extra, pool) && 0 <= f < NFRAMES && f !in pool
    ensures !Inner(mem, d, f) && f !in free
  {
    assert d in Own(lo, mem, d);
    assert f !in All(free);
  }

  lemma GrowsKeeps(lo: int, mem: seq<Page>, free: seq<int>, mem': seq<Page>, free': seq<int>, d: int, extra: set<int>,
                   pool: set<int>)
    requires Balanced(lo, mem, free, d, extra, pool) && Grows(mem, free, mem', free', d)
    requires forall u | 0 <= u < USERPAGES && Present(Entry(mem, d, u)) :: Entry(mem', d, u) == Entry(mem, d, u)
    ensures UsersKept(mem, mem', d) && OutsideKept(mem, mem', pool) && forall f | f in extra :: mem'[f] == mem[f]
  {
    forall u | 0 <= u < USERPAGES && Present(Entry(mem, d, u)) ensures mem'[User(mem, d, u)] == mem[User(mem, d, u)] {
      UserOwned(lo, mem, d, u);
      assert User(mem, d, u) !in All(free);
    }
    forall f | 0 <= f < NFRAMES && f !in pool ensures mem'[f] == mem[f] {
      InnerInPool(lo, mem, free, d, extra, pool, f);
    }
    forall f | f in extra ensures mem'[f] == mem[f] {
      ExtraApart(lo, mem, free, d, extra, pool, f);
    }
  }

  lemma ExtraApart(lo: int, mem: seq<Page>, free: seq<int>, d: int, extra: set<int>, pool: set<int>, f: int)
    requires Balanced(lo, mem, free, d, extra, pool) && f in extra
    ensures Managed(lo, f) && !Inner(mem, d, f) && f !in free
  {
    assert f !in All(free) && d in Own(lo, mem, d);
  }

  lemma ShrinksKeeps(lo: int, mem: seq<Page>, free: seq<int>, mem': seq<Page>, free': seq<int>, d: int,
                     extra: set<int>, pool: set<int>, u: int)
    requires Balanced(lo, mem, free, d, extra, pool) && Balanced(lo, mem', free', d, extra, pool)
             && Shrinks(mem, free, mem', free', d)
    requires 0 <= u < USERPAGES && Present(Entry(mem, d, u)) && Entry(mem', d, u) == Entry(mem, d, u)
    ensures Managed(lo, User(mem, d, u)) && mem'[User(mem, d, u)] == mem[User(mem, d, u)]
  {
    UserOwned(lo, mem, d, u);
    UserOwned(lo, mem', d, u);
    assert User(mem', d, u) !in All(free');
  }

  lemma ShrinksOutside(lo: int, mem: seq<Page>, free: seq<int>, mem': seq<Page>, free': seq<int>, d: int,
                       extra: set<int>, pool: set<int>)
    requires Balanced(lo, mem, free, d, extra, pool) && Balanced(lo, mem', free', d, extra, pool)
             && Shrinks(mem, free, mem', free', d)
    ensures OutsideKept(mem, mem', pool)
  {
    forall f | 0 <= f < NFRAMES && f !in pool ensures mem'[f] == mem[f] {
      InnerInPool(lo, mem, free, d, extra, pool, f);
      InnerInPool(lo, mem', free', d, extra, pool, f);
    }
  }

  /** Pages from .. to - 1 are new and zeroed, on frames that were free. */
  ghost predicate PagesAdded(mem: seq<Page>, free: seq<int>, mem': seq<Page>, d: int, from: int, to: int)
  {
    && |mem| == |mem'| == NFRAMES && 0 <= d < NFRAMES
    && (forall u | 0 <= u < ALLPAGES && !(from <= u < to) :: Entry(mem', d, u) == Entry(mem, d, u))
    && forall u | from <= u < to && 0 <= u < USERPAGES ::
         && Entry(mem', d, u) == Pte(User(mem', d, u), 6) && User(mem', d, u) in free
         && 0 < User(mem', d, u) < NFRAMES && mem'[User(mem', d, u)] == Filled(0)
  }

  /** A user program can read and write the pages that allocuvm adds. */
  lemma AddedUsable(lo: int, mem: seq<Page>, free: seq<int>, mem': seq<Page>, d: int, from: int, to: int, u: int)
    requires PagesAdded(mem, free, mem', d, from, to) && Space(lo, mem', d) && from <= u < to && 0 <= u < USERPAGES
    ensures UserReads(mem', d, u) && Writes(mem', d, u)
  {
    AccessIs(lo, mem', d, u);
    PteFields(User(mem', d, u), 6);
    PteBits(User(mem', d, u), 6);
  }

  lemma PageAdded(mem: seq<Page>, free: seq<int>, mem1: seq<Page>, mem2: seq<Page>, d: int, from: int, v: int, f: int)
    requires PagesAdded(mem, free, mem1, d, from, v) && 0 <= from <= v < USERPAGES && UsersKept(mem1, mem2, d)
    requires forall u | 0 <= u < ALLPAGES :: Entry(mem2, d, u) == if u == v then Pte(f, 6) else Entry(mem1, d, u)
    requires f in free && 0 < f < NFRAMES && mem2[f] == Filled(0)
    ensures PagesAdded(mem, free, mem2, d, from, v + 1)
  {
    PteFields(f, 6);
    forall u | from <= u < v ensures User(mem2, d, u) == User(mem1, d, u) && mem2[User(mem2, d, u)] == Filled(0) {
      PteFields(User(mem1, d, u), 6);
      assert Present(Entry(mem1, d, u));
    }
  }

  lemma SetOne(mem: seq<Page>, mem': seq<Page>, d: int, v: int, k: int, f: int, perm: int)
    requires v <= k <= v + 1 && 0 <= v < USERPAGES && EntriesSet(mem, mem', d, v, k, f, perm) && Bare(mem, d, v, k)
    ensures forall u | 0 <= u < ALLPAGES ::
              Entry(mem', d, u) == if u == v && k == v + 1 then Pte(f, perm) else Entry(mem, d, u)
    ensures forall u | 0 <= u < USERPAGES && Present(Entry(mem, d, u)) :: Entry(mem', d, u) == Entry(mem, d, u)
    ensures k == v + 1 ==> !Present(Entry(mem, d, v))
  {
  }

  lemma GivenOne(v: int, f: int)
    requires v < USERPAGES
    ensures Given(v, v + 1, f) == {f} && Given(v, v, f) == {} && {f} - {f} == {} && {f} - {} == {f}
  {
  }

  lemma PageAddress(v: int, f: int)
    ensures v * PGSIZE / PGSIZE == v && (v * PGSIZE + PGSIZE - 1) / PGSIZE == v && f * PGSIZE / PGSIZE == f
            && f * PGSIZE % PGSIZE == 0
  {
  }

  lemma UsersKeptOn(mem: seq<Page>, mem1: seq<Page>, mem2: seq<Page>, d: int)
    requires UsersKept(mem, mem1, d) && UsersKept(mem1, mem2, d)
    ensures UsersKept(mem, mem2, d)
  {
    forall u | 0 <= u < USERPAGES && Present(Entry(mem, d, u))
      ensures Entry(mem2, d, u) == Entry(mem, d, u)
      ensures 0 <= User(mem, d, u) < NFRAMES ==> mem2[User(mem, d, u)] == mem[User(mem, d, u)]
    {
      assert User(mem1, d, u) == User(mem, d, u);
    }
  }

  lemma AddedStays(mem: seq<Page>, free: seq<int>, mem1: seq<Page>, mem2: seq<Page>, d: int, from: int, v: int)
    requires PagesAdded(mem, free, mem1, d, from, v) && 0 <= from <= v < USERPAGES && UsersKept(mem1, mem2, d)
    requires forall u | 0 <= u < ALLPAGES :: Entry(mem2, d, u) == Entry(mem1, d, u)
    ensures PagesAdded(mem, free, mem2, d, from, v)
  {
    forall u | from <= u < v ensures User(mem2, d, u) == User(mem1, d, u) && mem2[User(mem2, d, u)] == Filled(0) {
      PteFields(User(mem1, d, u), 6);
      assert Present(Entry(mem1, d, u));
    }
  }

  /** The pages that a size takes. */
  function Pages(sz: int): int
  {
    (sz + PGSIZE - 1) / PGSIZE
  }

  /** User pages mapped before, outside from .. to - 1, are mapped as before, with the same
      contents, and no page there is new. */
  ghost predicate KeptBut(mem: seq<Page>, mem': seq<Page>, d: int, from: int, to: int)
  {
    && |mem| == |mem'| == NFRAMES && 0 <= d < NFRAMES
    && (forall u | 0 <= u < ALLPAGES && !(from <= u < to) :: Entry(mem', d, u) == Entry(mem, d, u))
    && forall u | 0 <= u < USERPAGES && !(from <= u < to) && Present(Entry(mem, d, u)) ::
         0 <= User(mem, d, u) < NFRAMES ==> mem'[User(mem, d, u)] == mem[User(mem, d, u)]
  }

  /** A page given back that no entry names. */
  lemma KeptOn(mem: seq<Page>, mem1: seq<Page>, mem2: seq<Page>, d: int, from: int, to: int)
    requires KeptBut(mem, mem1, d, from, to) && Bare(mem1, d, from, to) && UsersKept(mem1, mem2, d)
    requires forall u | 0 <= u < ALLPAGES :: Entry(mem2, d, u) == Entry(mem1, d, u)
    ensures KeptBut(mem, mem2, d, from, to) && Bare(mem2, d, from, to)
  {
    forall u | 0 <= u < USERPAGES && !(from <= u < to) && Present(Entry(mem, d, u))
      ensures 0 <= User(mem, d, u) < NFRAMES ==> mem2[User(mem, d, u)] == mem[User(mem, d, u)]
    {
      assert User(mem1, d, u) == User(mem, d, u);
    }
  }

  /** A failed allocuvm, after its deallocuvm. */
  lemma AllocUndone(lo: int, mem: seq<Page>, free: seq<int>, mem1: seq<Page>, free1: seq<int>, mem2: seq<Page>,
                    free2: seq<int>, d: int, from: int, to: int, extra: set<int>, pool: set<int>)
    requires Balanced(lo, mem1, free1, d, extra, pool) && Balanced(lo, mem2, free2, d, extra, pool)
    requires Shrinks(mem1, free1, mem2, free2, d) && EntriesGone(mem1, mem2, d, from, to) && 0 <= from
             && to <= USERPAGES
    requires UsersKept(mem, mem1, d) && OutsideKept(mem, mem1, pool)
    requires exists v :: from <= v < to && PagesAdded(mem, free, mem1, d, from, v)
    ensures KeptBut(mem, mem2, d, from, to) && Bare(mem2, d, from, to) && OutsideKept(mem, mem2, pool)
  {
    forall u | 0 <= u < USERPAGES && !(from <= u < to) && Present(Entry(mem, d, u))
      ensures 0 <= User(mem, d, u) < NFRAMES ==> mem2[User(mem, d, u)] == mem[User(mem, d, u)]
    {
      ShrinksKeeps(lo, mem1, free1, mem2, free2, d, extra, pool, u);
    }
    ShrinksOutside(lo, mem1, free1, mem2, free2, d, extra, pool);
  }

  // -------------------------------------------------------------- fork

  /** Directory d in mem' maps the first n user pages as p does in mem: same flags, same
      contents; no further user page; and the kernel. */
  ghost predicate IsCopy(mem: seq<Page>, mem': seq<Page>, p: int, d: int, n: int, data: int)
  {
    && |mem| == |mem'| == NFRAMES && 0 <= p < NFRAMES && 0 <= d < NFRAMES
    && (forall u | 0 <= u < n && u < USERPAGES :: CopiedPage(mem, mem', p, d, u))
    && (forall u | n <= u < USERPAGES && 0 <= u :: Entry(mem', d, u) == 0)
    && (forall u | USERPAGES <= u < ALLPAGES :: Entry(mem', d, u) == KernelEntry(data, u))
  }

  predicate CopiedPage(mem: seq<Page>, mem': seq<Page>, p: int, d: int, u: int)
    requires |mem| == |mem'| == NFRAMES && 0 <= p < NFRAMES && 0 <= d < NFRAMES && 0 <= u < USERPAGES
  {
    && Present(Entry(mem, p, u)) && Present(Entry(mem', d, u)) && Flags(Entry(mem', d, u)) == Flags(Entry(mem, p, u))
    && 0 < User(mem, p, u) < NFRAMES && 0 < User(mem', d, u) < NFRAMES
    && mem'[User(mem', d, u)] == mem[User(mem, p, u)]
  }

  /** A program finds in the child what it finds in the parent: the same pages, with the same
      rights and contents. */
  lemma CopyAccess(lo: int, mem: seq<Page>, mem': seq<Page>, p: int, d: int, n: int, data: int, u: int)
    requires IsCopy(mem, mem', p, d, n, data) && Space(lo, mem, p) && Space(lo, mem', d) && 0 <= u < n <= USERPAGES
    ensures Reached(mem, p, u) && Reached(mem', d, u)
    ensures UserReads(mem', d, u) <==> UserReads(mem, p, u)
    ensures Writes(mem', d, u) <==> Writes(mem, p, u)
    ensures 0 < Frame(Entry(mem, p, u)) < NFRAMES && 0 < Frame(Entry(mem', d, u)) < NFRAMES
    ensures mem'[Frame(Entry(mem', d, u))] == mem[Frame(Entry(mem, p, u))]
  {
    assert CopiedPage(mem, mem', p, d, u);
    AccessIs(lo, mem, p, u);
    AccessIs(lo, mem', d, u);
    FlagBits(Entry(mem, p, u));
    FlagBits(Entry(mem', d, u));
  }

  /** A parent whose frames are outside the pool is not changed by work inside it. */
  lemma ParentKept(lo: int, mem: seq<Page>, free: seq<int>, mem': seq<Page>, p: int)
    requires Space(lo, mem, p) && All(free) !! Own(lo, mem, p) && OutsideKept(mem, mem', All(free))
    ensures Space(lo, mem', p) && Own(lo, mem', p) == Own(lo, mem, p)
    ensures forall u | 0 <= u < ALLPAGES :: Entry(mem', p, u) == Entry(mem, p, u)
    ensures UsersKept(mem, mem', p)
  {
    SpaceFrame(lo, mem, mem', p);
    forall u | 0 <= u < USERPAGES && Present(Entry(mem, p, u)) ensures mem'[User(mem, p, u)] == mem[User(mem, p, u)] {
      UserOwned(lo, mem, p, u);
    }
  }

  lemma CopyStep(lo: int, mem: seq<Page>, mem1: seq<Page>, mem2: seq<Page>, p: int, d: int, v: int, f: int, data: int)
    requires IsCopy(mem, mem1, p, d, v, data) && 0 <= v < USERPAGES && UsersKept(mem1, mem2, d)
    requires Space(lo, mem, p) && Present(Entry(mem, p, v)) && Managed(lo, f) && mem2[f] == mem[User(mem, p, v)]
    requires forall u | 0 <= u < ALLPAGES ::
               Entry(mem2, d, u) == if u == v then Pte(f, Flags(Entry(mem, p, v))) else Entry(mem1, d, u)
    ensures IsCopy(mem, mem2, p, d, v + 1, data)
  {
    var w := Entry(mem, p, v);
    PteFields(f, Flags(w));
    assert Flags(w) % 2 == 1 by {
      assert w == w / PGSIZE * PGSIZE + Flags(w);
    }
    forall u | 0 <= u < v ensures CopiedPage(mem, mem2, p, d, u) {
      assert CopiedPage(mem, mem1, p, d, u);
    }
  }

  lemma KernelIsCopy(mem: seq<Page>, mem': seq<Page>, p: int, d: int, data: int)
    requires |mem| == |mem'| == NFRAMES && 0 <= p < NFRAMES && 0 <= d < NFRAMES && KernelMapped4(mem', d, data, 4)
    ensures IsCopy(mem, mem', p, d, 0, data)
  {
  }

  datatype CopyRound = PageDone | Short | Absent

  /** NotPresent is copyuvm's panic. */
  datatype Copy = Copied(d: int) | NoCopy | NotPresent

  /** No page of the range is mapped. */
  ghost predicate Bare(mem: seq<Page>, d: int, from: int, to: int)
  {
    0 <= d < |mem| && forall u | 0 <= u < ALLPAGES && from <= u < to :: !Present(Entry(mem, d, u))
  }

  /** mappages has mapped the pages first .. a - 1, none of which was mapped before. */
  ghost predicate MappedTo(lo: int, mem: seq<Page>, mem': seq<Page>, free': seq<int>, d: int, first: int, a: int,
                           f: int, perm: int, extra: set<int>, pool: set<int>)
  {
    && Balanced(lo, mem', free', d, extra - Given(first, a, f), pool)
    && EntriesSet(mem, mem', d, first, a, f, perm) && Bare(mem, d, first, a)
  }

  lemma SetMore(mem: seq<Page>, mem1: seq<Page>, mem2: seq<Page>, d: int, first: int, a: int, f: int, perm: int)
    requires EntriesSet(mem, mem1, d, first, a, f, perm) && first <= a && |mem2| == |mem|
    requires forall u | 0 <= u < ALLPAGES ::
               Entry(mem2, d, u) == if u == a then Pte(f + (a - first), perm) else Entry(mem1, d, u)
    ensures EntriesSet(mem, mem2, d, first, a + 1, f, perm)
  {
  }

  /** Page v, if set, now names frame f; the other pages are as they were. */
  ghost predicate OneSet(mem: seq<Page>, mem': seq<Page>, d: int, v: int, f: int, perm: int, done: bool)
  {
    && |mem| == |mem'| && 0 <= d < |mem|
    && forall u | 0 <= u < ALLPAGES :: Entry(mem', d, u) == if u == v && done then Pte(f, perm) else Entry(mem, d, u)
  }

  /** One page more, or none. */
  lemma MappedMore(lo: int, mem: seq<Page>, mem1: seq<Page>, free1: seq<int>, mem2: seq<Page>, free2: seq<int>, d: int,
                   first: int, a: int, last: int, f: int, perm: int, extra: set<int>, pool: set<int>, more: bool)
    requires MappedTo(lo, mem, mem1, free1, d, first, a, f, perm, extra, pool)
    requires 0 <= first <= a <= last < ALLPAGES && Given(first, last + 1, f) <= extra
    requires OneSet(mem1, mem2, d, a, f + (a - first), perm, more)
    requires more ==> !Present(Entry(mem1, d, a))
    requires Balanced(lo, mem2, free2, d, if a < USERPAGES && more then extra - Given(first, a, f) - {f + (a - first)}
                                          else extra - Given(first, a, f), pool)
    ensures MappedTo(lo, mem, mem2, free2, d, first, if more then a + 1 else a, f, perm, extra, pool)
    ensures Entry(mem1, d, a) == Entry(mem, d, a)
  {
    assert Entry(mem1, d, a) == Entry(mem, d, a);
    if more {
      GivenMore(first, a, last, f, extra);
      SetMore(mem, mem1, mem2, d, first, a, f, perm);
    }
  }

  /** The frames, from f on, that pages first .. end - 1 give to the user part. */
  ghost function Given(first: int, end: int, f: int): (r: set<int>)
    ensures forall x :: x in r <==> f <= x < f + (Min(end, USERPAGES) - first)
    decreases end - first
  {
    if Min(end, USERPAGES) <= first then {} else {f} + Given(first + 1, end, f + 1)
  }

  lemma GivenMore(first: int, a: int, last: int, f: int, extra: set<int>)
    requires first <= a <= last && Given(first, last + 1, f) <= extra
    ensures a < USERPAGES ==> f + (a - first) in extra - Given(first, a, f)
    ensures extra - Given(first, a + 1, f)
            == if a < USERPAGES then extra - Given(first, a, f) - {f + (a - first)} else extra - Given(first, a, f)
  {
    if a < USERPAGES {
      assert f + (a - first) in Given(first, last + 1, f);
      assert Given(first, a + 1, f) == Given(first, a, f) + {f + (a - first)};
    } else {
      assert Given(first, a + 1, f) == Given(first, a, f);
    }
  }

  datatype Alloc = Size(n: int) | Refused | Panics

  datatype Mapping = Mapped | NoMemory | Remap

  class Memory {
    const lo: int                 // the first frame after the kernel image
    var mem: seq<Page>
    var head: int
    ghost var free: seq<int>

    ghost predicate Valid()
      reads this
    {
      Chained(lo, mem, head, free)
    }

    /** No frame is free until freerange has run. */
    constructor (lo: int, mem: seq<Page>)
      requires 0 < lo && |mem| == NFRAMES
      ensures Valid() && this.lo == lo && this.mem == mem && free == []
    {
      this.lo := lo;
      this.mem := mem;
      head, free := 0, [];
    }

    /** freerange: gives frames from .. to - 1 to the free list. */
    method Freerange(from: int, to: int) returns (ok: bool)
      requires Valid() && lo <= from && to <= NFRAMES && forall f | from <= f < to :: f !in free
      modifies this`mem, this`head, this`free
      ensures ok && Valid() && forall f :: f in free <==> f in old(free) || from <= f < to
    {
      ok := true;
      var p := from;
      while p + 1 <= to
        invariant from <= p && (p <= to || p == from) && ok && Valid()
        invariant forall f :: f in free <==> f in old(free) || from <= f < p
      {
        ok := Kfree(p);
        p := p + 1;
      }
    }

    /** Pops the free list; 0 if it is empty. */
    method Kalloc() returns (f: int)
      requires Valid()
      modifies this`head, this`free
      ensures Valid() && (f == 0 <==> old(free) == [])
      ensures f == 0 ==> free == old(free)
      ensures f != 0 ==> Managed(lo, f) && f !in free && f == old(free)[0] && free == old(free)[1..]
                         && All(old(free)) == All(free) + {f}
    {
      f := head;
      if f != 0 {
        ChainTail(lo, mem, head, free);
        var w := mem[f][0];
        head := if w == 0 then 0 else (w - KERNBASE) / PGSIZE;
        free := free[1..];
        assert head == First(free);
      }
    }

    /** Pushes a frame on the free list; !ok is the panic.  A frame already on the list is
        not refused, and leaves a list that never ends. */
    method Kfree(f: int) returns (ok: bool)
      requires Valid()
      modifies this`mem, this`head, this`free
      ensures ok <==> Managed(lo, f)
      ensures ok ==> mem == old(mem)[f := Junk(old(head))] && head == f
      ensures ok && f !in old(free) ==> Valid() && free == [f] + old(free) && All(free) == All(old(free)) + {f}
      ensures ok && f in old(free) ==> forall fs :: !Chained(lo, mem, head, fs)
      ensures !ok ==> mem == old(mem) && free == old(free) && head == old(head)
    {
      if f < lo || f >= NFRAMES {
        return false;
      }
      ghost var was, first := mem, head;
      mem := mem[f := Filled(0x01010101)];
      mem := mem[f := mem[f][0 := Link(head)]];
      head := f;
      if f !in free {
        ChainPush(lo, was, first, free, f, Junk(first));
        free := [f] + free;
      } else {
        forall fs ensures !Chained(lo, mem, head, fs) {
          DoubleFree(lo, was, first, free, f, fs);
        }
      }
      ok := true;
    }

    /** walkpgdir with alloc set; the table of page v, or 0. */
    method WalkCreate(d: int, v: int, ghost extra: set<int>, ghost pool: set<int>) returns (t: int)
      requires Valid() && Balanced(lo, mem, free, d, extra, pool) && 0 <= v < ALLPAGES
      modifies this`mem, this`head, this`free
      ensures Valid() && Balanced(lo, mem, free, d, extra, pool)
      ensures forall u | 0 <= u < ALLPAGES :: Entry(mem, d, u) == Entry(old(mem), d, u)
      ensures t == Table(mem, d, v / NPT)
      ensures t == 0 ==> old(free) == [] && free == [] && mem == old(mem)
      ensures Grows(old(mem), old(free), mem, free, d)
    {
      var pde := mem[d][v / NPT];
      if Present(pde) {
        t := Frame(pde);
        assert t == Table(mem, d, v / NPT);
      } else {
        t := Kalloc();
        if t != 0 {
          assert d in Own(lo, mem, d);
          TableMaps(lo, mem, d, v / NPT, t);
          TableAdded(lo, mem, d, v / NPT, t);
          mem := mem[t := Filled(0)];
          mem := mem[d := mem[d][v / NPT := Pte(t, 6)]];
          assert mem == WithTable(old(mem), d, v / NPT, t);
          TableGrows(old(mem), old(free), free, d, v / NPT, t);
          ChainFrame(lo, old(mem), mem, head, free);
        }
      }
    }

    /** One round of mappages: page v gets frame f. */
    method MapPage(d: int, v: int, f: int, perm: int, ghost extra: set<int>, ghost pool: set<int>) returns (r: Mapping)
      requires Valid() && Balanced(lo, mem, free, d, extra, pool) && 0 <= v < ALLPAGES && 0 <= perm < PGSIZE
      requires v < USERPAGES ==> f in extra
      modifies this`mem, this`head, this`free
      ensures Valid() && Grows(old(mem), old(free), mem, free, d)
      ensures r == Remap <==> Present(Entry(old(mem), d, v))
      ensures r == NoMemory ==> mem == old(mem) && free == old(free) == []
      ensures Balanced(lo, mem, free, d, if v < USERPAGES && r == Mapped then extra - {f} else extra, pool)
      ensures OneSet(old(mem), mem, d, v, f, perm, r == Mapped)
    {
      var t := WalkCreate(d, v, extra, pool);
      if t == 0 {
        return NoMemory;
      }
      InnerOwned(lo, mem, d, v / NPT);
      assert mem[t][v % NPT] == Entry(mem, d, v) == Entry(old(mem), d, v);
      if Present(mem[t][v % NPT]) {
        return Remap;
      }
      ghost var mem1 := mem;
      SetEntry(d, t, v, f, perm, extra, pool);
      GrowsGrows(old(mem), old(free), mem1, free, mem, free, d);
      r := Mapped;
    }

    /** The assignment to *pte. */
    method SetEntry(d: int, t: int, v: int, f: int, perm: int, ghost extra: set<int>, ghost pool: set<int>)
      requires Valid() && Balanced(lo, mem, free, d, extra, pool) && 0 <= v < ALLPAGES && 0 <= perm < PGSIZE
      requires t == Table(mem, d, v / NPT) != 0 && !Present(Entry(mem, d, v)) && (v < USERPAGES ==> f in extra)
      modifies this`mem
      ensures Valid() && Grows(old(mem), free, mem, free, d)
      ensures Balanced(lo, mem, free, d, if v < USERPAGES then extra - {f} else extra, pool)
      ensures OneSet(old(mem), mem, d, v, f, perm, true)
    {
      InnerOwned(lo, mem, d, v / NPT);
      ghost var mem1 := mem;
      mem := mem[t := mem[t][v % NPT := Pte(f, perm)]];
      assert mem == WithEntry(mem1, t, v, Pte(f, perm));
      EntrySet(lo, mem1, d, t, v, Pte(f, perm));
      EntryGrows(lo, mem1, free, d, t, v, Pte(f, perm));
      ChainFrame(lo, mem1, mem, head, free);
      if v < USERPAGES {
        PageMapped(lo, mem1, d, t, v, f, perm);
      } else {
        KernelMapped(lo, mem1, d, t, v, Pte(f, perm));
      }
    }

    /** mappages' loop, by page number; k is the first page not mapped. */
    method MapRange(d: int, first: int, last: int, f: int, perm: int, ghost extra: set<int>, ghost pool: set<int>)
      returns (r: Mapping, ghost k: int)
      requires Valid() && Balanced(lo, mem, free, d, extra, pool) && 0 <= perm < PGSIZE && 0 <= first <= last < ALLPAGES
      requires Given(first, last + 1, f) <= extra
      modifies this`mem, this`head, this`free
      ensures Valid() && Grows(old(mem), old(free), mem, free, d) && first <= k <= last + 1
              && (r == Mapped <==> k == last + 1)
      ensures MappedTo(lo, old(mem), mem, free, d, first, k, f, perm, extra, pool)
      ensures r == NoMemory ==> free == []
      ensures k <= last ==> (r == Remap <==> Present(Entry(old(mem), d, k)))
    {
      var a, phys := first, f;
      assert extra - Given(first, first, f) == extra;
      while true
        invariant first <= a <= last && phys == f + (a - first)
        invariant Valid() && MappedTo(lo, old(mem), mem, free, d, first, a, f, perm, extra, pool)
        invariant Grows(old(mem), old(free), mem, free, d)
        decreases last - a
      {
        r := MapNext(d, a, phys, perm, f, first, last, old(mem), old(free), extra, pool);
        k := if r == Mapped then a + 1 else a;
        if r != Mapped || a == last {
          return;
        }
        a := a + 1;
        phys := phys + 1;
      }
    }

    /** One round of that loop. */
    method MapNext(d: int, a: int, phys: int, perm: int, ghost f: int, ghost first: int, ghost last: int,
                   ghost mem0: seq<Page>, ghost free0: seq<int>, ghost extra: set<int>, ghost pool: set<int>)
      returns (r: Mapping)
      requires Valid() && 0 <= perm < PGSIZE && 0 <= first <= a <= last < ALLPAGES
      requires phys == f + (a - first) && Given(first, last + 1, f) <= extra && Grows(mem0, free0, mem, free, d)
      requires MappedTo(lo, mem0, mem, free, d, first, a, f, perm, extra, pool)
      modifies this`mem, this`head, this`free
      ensures Valid() && Grows(mem0, free0, mem, free, d)
      ensures MappedTo(lo, mem0, mem, free, d, first, if r == Mapped then a + 1 else a, f, perm, extra, pool)
      ensures r == NoMemory ==> free == []
      ensures r == Remap <==> Present(Entry(mem0, d, a))
    {
      ghost var mem1, free1, left := mem, free, extra - Given(first, a, f);
      GivenMore(first, a, last, f, extra);
      r := MapPage(d, a, phys, perm, left, pool);
      GrowsGrows(mem0, free0, mem1, free1, mem, free, d);
      MappedMore(lo, mem0, mem1, free1, mem, free, d, first, a, last, f, perm, extra, pool, r == Mapped);
    }

    /** Maps the pages that meet [va, va + size), which are first .. last, to the frames from
        pa on, which are f and the following; k is the first page not mapped.  Frames for
        user pages come out of extra. */
    method Mappages(d: int, va: int, size: int, pa: int, perm: int,
                    ghost first: int, ghost last: int, ghost f: int, ghost extra: set<int>, ghost pool: set<int>)
      returns (r: Mapping, ghost k: int)
      requires Valid() && Balanced(lo, mem, free, d, extra, pool) && 0 <= perm < PGSIZE
      requires 0 <= va && 0 < size && va + size <= ALLPAGES * PGSIZE && pa % PGSIZE == 0
      requires first == va / PGSIZE && last == (va + size - 1) / PGSIZE && f == pa / PGSIZE
      requires Given(first, last + 1, f) <= extra
      modifies this`mem, this`head, this`free
      ensures Valid() && Grows(old(mem), old(free), mem, free, d) && first <= k <= last + 1
              && (r == Mapped <==> k == last + 1)
      ensures MappedTo(lo, old(mem), mem, free, d, first, k, f, perm, extra, pool)
      ensures r == NoMemory ==> free == []
      ensures k <= last ==> (r == Remap <==> Present(Entry(old(mem), d, k)))
    {
      r, k := MapRange(d, va / PGSIZE, (va + size - 1) / PGSIZE, pa / PGSIZE, perm, extra, pool);
    }

    /** kfree of a user page and the clearing of its entry. */
    method UnmapPage(d: int, v: int, t: int, ghost extra: set<int>, ghost pool: set<int>) returns (ok: bool)
      requires Valid() && Balanced(lo, mem, free, d, extra, pool) && 0 <= v < USERPAGES
               && t == Table(mem, d, v / NPT) != 0
      requires Present(Entry(mem, d, v))
      modifies this`mem, this`head, this`free
      ensures ok && Valid() && Balanced(lo, mem, free, d, extra, pool) && Shrinks(old(mem), old(free), mem, free, d)
      ensures EntriesGone(old(mem), mem, d, v, v + 1)
    {
      UnmapBalanced(lo, mem, free, d, t, v, Junk(head), extra, pool);
      ok := Kfree(Frame(mem[t][v % NPT]));
      ghost var mem1 := mem;
      mem := mem[t := mem[t][v % NPT := 0]];
      ChainFrame(lo, mem1, mem, head, free);
      assert IsTable(old(mem), d, t);
    }

    /** deallocuvm's loop, by page number: pages from .. to - 1, leaping over absent tables. */
    method UnmapRange(d: int, from: int, to: int, ghost extra: set<int>, ghost pool: set<int>) returns (ok: bool)
      requires Valid() && Balanced(lo, mem, free, d, extra, pool) && 0 <= from && to <= USERPAGES
      modifies this`mem, this`head, this`free
      ensures ok && Valid() && Balanced(lo, mem, free, d, extra, pool) && Shrinks(old(mem), old(free), mem, free, d)
      ensures EntriesGone(old(mem), mem, d, from, to)
    {
      var v := from;
      ok := true;
      GoneNone(mem, d, from, to);
      while v < to
        invariant from <= v && ok && Valid() && Balanced(lo, mem, free, d, extra, pool)
                  && Shrinks(old(mem), old(free), mem, free, d)
        invariant EntriesGone(old(mem), mem, d, from, Min(v, to))
      {
        ghost var mem1, free1, v1 := mem, free, v;
        v, ok := UnmapStep(d, v, to, extra, pool);
        ShrinksShrinks(old(mem), old(free), mem1, free1, mem, free, d);
        GoneGone(old(mem), mem1, mem, d, from, v1, Min(v, to));
      }
    }

    /** One round of that loop; next is the page to go on with. */
    method UnmapStep(d: int, v: int, ghost to: int, ghost extra: set<int>, ghost pool: set<int>)
      returns (next: int, ok: bool)
      requires Valid() && Balanced(lo, mem, free, d, extra, pool) && 0 <= v < to <= USERPAGES
      modifies this`mem, this`head, this`free
      ensures ok && v < next && Valid() && Balanced(lo, mem, free, d, extra, pool)
              && Shrinks(old(mem), old(free), mem, free, d)
      ensures EntriesGone(old(mem), mem, d, v, Min(next, to))
    {
      ok, next := true, v;
      if !Present(mem[d][v / NPT]) {
        NoTable(mem, d, v);
        next := (v / NPT + 1) * NPT - 1;
      } else {
        var t := Frame(mem[d][v / NPT]);
        InnerOwned(lo, mem, d, v / NPT);
        assert t == Table(mem, d, v / NPT) && mem[t][v % NPT] == Entry(mem, d, v);
        if Present(mem[t][v % NPT]) {
          ok := UnmapPage(d, v, t, extra, pool);
        }
      }
      next := next + 1;
    }

    /** Shrinks a process; the result is the new size. */
    method Deallocuvm(d: int, oldsz: int, newsz: int, ghost extra: set<int>, ghost pool: set<int>)
      returns (sz: int, ok: bool)
      requires Valid() && Balanced(lo, mem, free, d, extra, pool) && 0 <= newsz && oldsz <= KERNBASE
      modifies this`mem, this`head, this`free
      ensures sz == if newsz >= oldsz then oldsz else newsz
      ensures ok && Valid() && Balanced(lo, mem, free, d, extra, pool) && Shrinks(old(mem), old(free), mem, free, d)
      ensures EntriesGone(old(mem), mem, d, (newsz + PGSIZE - 1) / PGSIZE, (oldsz + PGSIZE - 1) / PGSIZE)
    {
      ok := true;
      if newsz >= oldsz {
        return oldsz, ok;
      }
      ok := UnmapRange(d, (newsz + PGSIZE - 1) / PGSIZE, (oldsz + PGSIZE - 1) / PGSIZE, extra, pool);
      sz := newsz;
    }

    /** Gives back everything an address space owns; no panic. */
    method Freevm(d: int, ghost extra: set<int>, ghost pool: set<int>) returns (ok: bool)
      requires Valid() && Balanced(lo, mem, free, d, extra, pool)
      modifies this`mem, this`head, this`free
      ensures ok && Valid() && All(free) !! extra && All(free) + extra == pool
      ensures forall f | 0 <= f < NFRAMES && f !in free :: mem[f] == old(mem)[f]
    {
      var sz;
      sz, ok := Deallocuvm(d, KERNBASE, 0, extra, pool);
      OwnBare(lo, mem, d);
      ok := FreeTables(d, extra, pool);
      ghost var mem1, free1 := mem, free;
      ok := Kfree(d);
      forall f | 0 <= f < NFRAMES && f !in free ensures mem[f] == old(mem)[f] {
        FreevmOutside(lo, old(mem), old(free), d, extra, pool, f, All(free));
      }
    }

    /** The second half of freevm. */
    method FreeTables(d: int, ghost extra: set<int>, ghost pool: set<int>) returns (ok: bool)
      requires Valid() && TablesOk(lo, mem, d) && pool == All(free) + Later(mem[d], 0) + {d} + extra
      requires All(free) !! Later(mem[d], 0) !! {d} !! extra
      modifies this`mem, this`head, this`free
      ensures ok && Valid() && pool == All(free) + {d} + extra && All(free) !! {d} !! extra
      ensures All(old(free)) <= All(free) && forall f | 0 <= f < NFRAMES && f !in free :: mem[f] == old(mem)[f]
    {
      ghost var pd := mem[d];
      ok := true;
      var i := 0;
      while i < NPT
        invariant 0 <= i <= NPT && ok && Valid() && mem[d] == pd && Parts(pool, All(free), Later(pd, i), d, extra)
        invariant All(old(free)) <= All(free) && forall f | 0 <= f < NFRAMES && f !in free :: mem[f] == old(mem)[f]
      {
        LaterStep(lo, old(mem), d, i);
        if Present(mem[d][i]) {
          PartsMove(pool, All(free), Later(pd, i), d, extra, Frame(mem[d][i]));
          ok := Kfree(Frame(mem[d][i]));
        }
        i := i + 1;
      }
    }

    /** A new directory with the kernel's mappings; 0 if memory ran out. */
    method Setupkvm(data: int) returns (d: int, ok: bool)
      requires Valid() && KernelData(data)
      modifies this`mem, this`head, this`free
      ensures ok && Valid() && forall f | 0 <= f < NFRAMES && f !in old(free) :: mem[f] == old(mem)[f]
      ensures d == 0 ==> All(free) == All(old(free))
      ensures d != 0 ==> Balanced(lo, mem, free, d, {}, All(old(free))) && KernelMapped4(mem, d, data, 4)
    {
      ok := true;
      d := NewSpace(data);
      if d == 0 {
        return;
      }
      var m := MapKernel(d, data, old(free));
      if m == NoMemory {
        ok := Freevm(d, {}, All(old(free)));
        assert forall f | f in free :: f in All(old(free));
        d := 0;
      }
    }

    method NewSpace(ghost data: int) returns (d: int)
      requires Valid()
      modifies this`mem, this`head, this`free
      ensures Valid() && forall f | 0 <= f < NFRAMES && f !in old(free) :: mem[f] == old(mem)[f]
      ensures d == 0 ==> free == old(free)
      ensures d != 0 ==> Balanced(lo, mem, free, d, {}, All(old(free))) && KernelMapped4(mem, d, data, 0)
    {
      d := Kalloc();
      if d != 0 {
        NewDirectory(lo, mem, d, data);
        mem := mem[d := Filled(0)];
        ChainFrame(lo, old(mem), mem, head, free);
      }
    }

    /** setupkvm's loop over kmap. */
    method MapKernel(d: int, data: int, ghost pool: seq<int>) returns (r: Mapping)
      requires Valid() && KernelData(data) && Balanced(lo, mem, free, d, {}, All(pool))
               && KernelMapped4(mem, d, data, 0)
      modifies this`mem, this`head, this`free
      ensures Valid() && Balanced(lo, mem, free, d, {}, All(pool)) && r != Remap
              && (r == Mapped ==> KernelMapped4(mem, d, data, 4))
      ensures forall f | 0 <= f < NFRAMES && f !in pool :: mem[f] == old(mem)[f]
    {
      r := Mapped;
      var k := 0;
      while k < 4
        invariant 0 <= k <= 4 && r == Mapped
        invariant Valid() && Balanced(lo, mem, free, d, {}, All(pool)) && KernelMapped4(mem, d, data, k)
        invariant forall f | 0 <= f < NFRAMES && f !in pool :: mem[f] == old(mem)[f]
      {
        ghost var mem1 := mem;
        RowOk(data, k);
        var row := KmapRow(data, k);
        r := MapRow(d, row, (row.end - row.start) % 0x1_0000_0000, row.virt / PGSIZE,
                    (row.virt + RowSize(data, k) - 1) / PGSIZE, row.start / PGSIZE, pool);
        if r != Mapped {
          return;
        }
        RowMapped(mem1, mem, d, data, k);
        k := k + 1;
      }
    }

    method MapRow(d: int, row: Kmap, size: int, ghost first: int, ghost last: int, ghost f: int, ghost pool: seq<int>)
      returns (r: Mapping)
      requires Valid() && Balanced(lo, mem, free, d, {}, All(pool))
      requires 0 <= row.virt && 0 < size && row.virt + size <= ALLPAGES * PGSIZE && row.start % PGSIZE == 0
               && 0 <= row.perm < PGSIZE
      requires first == row.virt / PGSIZE && last == (row.virt + size - 1) / PGSIZE && f == row.start / PGSIZE
      requires USERPAGES <= first && last < ALLPAGES && forall u | first <= u < ALLPAGES :: Entry(mem, d, u) == 0
      modifies this`mem, this`head, this`free
      ensures Valid() && Balanced(lo, mem, free, d, {}, All(pool)) && r != Remap
      ensures r == Mapped ==> EntriesSet(old(mem), mem, d, first, last + 1, f, row.perm)
      ensures forall f | 0 <= f < NFRAMES && f !in pool :: mem[f] == old(mem)[f]
    {
      ghost var k;
      assert Given(first, last + 1, f) == {};
      r, k := Mappages(d, row.virt, size, row.start, row.perm, first, last, f, {}, All(pool));
      GrowsInside(lo, pool, old(mem), old(free), mem, free, d);
    }

    /** One round of allocuvm's loop; f is the page taken, 0 if there was none. */
    method AllocPage(d: int, v: int, ghost pool: set<int>) returns (m: Mapping, f: int)
      requires Valid() && Balanced(lo, mem, free, d, {}, pool) && 0 <= v < USERPAGES
      modifies this`mem, this`head, this`free
      ensures Valid() && UsersKept(old(mem), mem, d) && OutsideKept(old(mem), mem, pool)
      ensures m == Remap ==> Present(Entry(old(mem), d, v))
      ensures m == Mapped ==> !Present(Entry(old(mem), d, v))
      ensures All(free) <= All(old(free)) && (f != 0 ==> f in old(free))
      ensures m == NoMemory ==> Balanced(lo, mem, free, d, if f == 0 then {} else {f}, pool)
                                && forall u | 0 <= u < ALLPAGES :: Entry(mem, d, u) == Entry(old(mem), d, u)
      ensures m == Mapped ==> && Balanced(lo, mem, free, d, {}, pool) && f in old(free) && Managed(lo, f)
                              && mem[f] == Filled(0)
                              && forall u | 0 <= u < ALLPAGES ::
                                   Entry(mem, d, u) == if u == v then Pte(f, 6) else Entry(old(mem), d, u)
    {
      f := TakeFrame(d, Filled(0), pool);
      if f == 0 {
        return NoMemory, 0;
      }
      ghost var mem1 := mem;
      m := MapUser(d, v, f, 6, pool);
      UsersKeptOn(old(mem), mem1, mem, d);
    }

    /** mappages for one user page. */
    method MapUser(d: int, v: int, f: int, perm: int, ghost pool: set<int>) returns (m: Mapping)
      requires Valid() && Balanced(lo, mem, free, d, {f}, pool) && 0 <= v < USERPAGES && 0 <= perm < PGSIZE
      modifies this`mem, this`head, this`free
      ensures Valid() && UsersKept(old(mem), mem, d) && OutsideKept(old(mem), mem, pool)
      ensures All(free) <= All(old(free)) && Managed(lo, f) && mem[f] == old(mem)[f]
      ensures m == Remap ==> Present(Entry(old(mem), d, v))
      ensures m == Mapped ==> !Present(Entry(old(mem), d, v))
      ensures m == NoMemory ==> && Balanced(lo, mem, free, d, {f}, pool)
                                && forall u | 0 <= u < ALLPAGES :: Entry(mem, d, u) == Entry(old(mem), d, u)
      ensures m == Mapped ==> && Balanced(lo, mem, free, d, {}, pool)
                              && forall u | 0 <= u < ALLPAGES ::
                                   Entry(mem, d, u) == if u == v then Pte(f, perm) else Entry(old(mem), d, u)
    {
      PageAddress(v, f);
      GivenOne(v, f);
      ghost var k;
      m, k := Mappages(d, v * PGSIZE, PGSIZE, f * PGSIZE, perm, v, v, f, {f}, pool);
      SetOne(old(mem), mem, d, v, k, f, perm);
      GrowsKeeps(lo, old(mem), old(free), mem, free, d, {f}, pool);
    }

    /** kalloc of a page for d, filled with p. */
    method TakeFrame(d: int, p: Page, ghost pool: set<int>) returns (f: int)
      requires Valid() && Balanced(lo, mem, free, d, {}, pool)
      modifies this`mem, this`head, this`free
      ensures Valid() && UsersKept(old(mem), mem, d) && OutsideKept(old(mem), mem, pool) && All(free) <= All(old(free))
      ensures forall u | 0 <= u < ALLPAGES :: Entry(mem, d, u) == Entry(old(mem), d, u)
      ensures f == 0 ==> Balanced(lo, mem, free, d, {}, pool) && mem == old(mem) && free == old(free)
      ensures f != 0 ==> Balanced(lo, mem, free, d, {f}, pool) && f in old(free) && Managed(lo, f) && mem[f] == p
    {
      f := Kalloc();
      if f != 0 {
        FrameTaken(lo, mem, old(free), free, d, f, pool);
        FrameFilled(lo, mem, free, d, f, p, pool);
        mem := mem[f := p];
        ChainFrame(lo, old(mem), mem, head, free);
      }
    }

    /** allocuvm's loop, by page number; f is a page taken and not mapped, if any. */
    method AllocRange(d: int, from: int, to: int, ghost pool: set<int>) returns (m: Mapping, f: int)
      requires Valid() && Balanced(lo, mem, free, d, {}, pool) && 0 <= from && to <= USERPAGES
      modifies this`mem, this`head, this`free
      ensures Valid() && UsersKept(old(mem), mem, d) && OutsideKept(old(mem), mem, pool)
      ensures m == Remap ==> !Bare(old(mem), d, from, to)
      ensures m == Mapped ==> && Balanced(lo, mem, free, d, {}, pool) && Bare(old(mem), d, from, to)
                              && PagesAdded(old(mem), old(free), mem, d, from, Max(from, to))
      ensures m == NoMemory ==> && Balanced(lo, mem, free, d, if f == 0 then {} else {f}, pool)
                                && exists v :: from <= v < to && PagesAdded(old(mem), old(free), mem, d, from, v)
    {
      m, f := Mapped, 0;
      var v := from;
      while v < to
        invariant from <= v <= Max(from, to) && m == Mapped && Valid() && Balanced(lo, mem, free, d, {}, pool)
        invariant PagesAdded(old(mem), old(free), mem, d, from, v) && All(free) <= All(old(free))
                  && Bare(old(mem), d, from, v)
        invariant UsersKept(old(mem), mem, d) && OutsideKept(old(mem), mem, pool)
      {
        ghost var mem1, free1 := mem, free;
        m, f := AllocPage(d, v, pool);
        UsersKeptOn(old(mem), mem1, mem, d);
        assert Entry(mem1, d, v) == Entry(old(mem), d, v);
        if m == Remap {
          return;
        }
        if m == NoMemory {
          AddedStays(old(mem), old(free), mem1, mem, d, from, v);
          return;
        }
        assert f in All(free1);
        PageAdded(old(mem), old(free), mem1, mem, d, from, v, f);
        v := v + 1;
      }
    }

    /** Grows a process from oldsz to newsz.  If memory runs out, the pages from oldsz on are
        gone and the others as they were; if one from oldsz on is mapped already and is
        reached, the kernel panics. */
    method Allocuvm(d: int, oldsz: int, newsz: int, ghost pool: set<int>) returns (r: Alloc)
      requires Valid() && Balanced(lo, mem, free, d, {}, pool) && 0 <= oldsz && 0 <= newsz
      modifies this`mem, this`head, this`free
      ensures r == Panics ==> newsz < KERNBASE && !Bare(old(mem), d, Pages(oldsz), Pages(newsz))
      ensures r != Panics ==> Valid() && Balanced(lo, mem, free, d, {}, pool) && OutsideKept(old(mem), mem, pool)
      ensures newsz >= KERNBASE ==> r == Refused && mem == old(mem)
      ensures newsz < KERNBASE && newsz < oldsz ==> r == Size(oldsz) && mem == old(mem)
      ensures oldsz <= newsz < KERNBASE ==> r == Size(newsz) || r == Refused || r == Panics
      ensures oldsz <= newsz && r == Size(newsz) ==>
                && Bare(old(mem), d, Pages(oldsz), Pages(newsz)) && UsersKept(old(mem), mem, d)
                && PagesAdded(old(mem), old(free), mem, d, Pages(oldsz), Pages(newsz))
      ensures newsz < KERNBASE && r == Refused ==>
                KeptBut(old(mem), mem, d, Pages(oldsz), Pages(newsz)) && Bare(mem, d, Pages(oldsz), Pages(newsz))
    {
      if newsz >= KERNBASE {
        return Refused;
      }
      if newsz < oldsz {
        return Size(oldsz);
      }
      var m, f := AllocRange(d, Pages(oldsz), Pages(newsz), pool);
      if m == Remap {
        return Panics;
      }
      if m == NoMemory {
        AllocUndo(d, oldsz, newsz, f, old(mem), old(free), pool);
        return Refused;
      }
      r := Size(newsz);
    }

    /** allocuvm's way out when memory has run out: deallocuvm, and kfree of a page taken and
        not mapped. */
    method AllocUndo(d: int, oldsz: int, newsz: int, f: int, ghost mem0: seq<Page>, ghost free0: seq<int>,
                     ghost pool: set<int>)
      requires Valid() && Balanced(lo, mem, free, d, if f == 0 then {} else {f}, pool) && 0 <= oldsz <= newsz < KERNBASE
      requires UsersKept(mem0, mem, d) && OutsideKept(mem0, mem, pool)
      requires exists v :: Pages(oldsz) <= v < Pages(newsz) && PagesAdded(mem0, free0, mem, d, Pages(oldsz), v)
      modifies this`mem, this`head, this`free
      ensures Valid() && Balanced(lo, mem, free, d, {}, pool) && OutsideKept(mem0, mem, pool)
      ensures KeptBut(mem0, mem, d, Pages(oldsz), Pages(newsz)) && Bare(mem, d, Pages(oldsz), Pages(newsz))
    {
      ghost var mem1, free1, extra := mem, free, if f == 0 then {} else {f};
      var sz, ok := Deallocuvm(d, newsz, oldsz, extra, pool);
      AllocUndone(lo, mem0, free0, mem1, free1, mem, free, d, Pages(oldsz), Pages(newsz), extra, pool);
      if f != 0 {
        ghost var mem2 := mem;
        ExtraApart(lo, mem, free, d, {f}, pool, f);
        FrameGiven(lo, mem, free, d, f, Junk(head), pool);
        ok := Kfree(f);
        KeptOn(mem0, mem2, mem, d, Pages(oldsz), Pages(newsz));
      }
    }

    /** One round of copyuvm's loop; f is a page taken and not mapped, if any. */
    method CopyPage(p: int, d: int, v: int, ghost mem0: seq<Page>, ghost free0: seq<int>, ghost data: int)
      returns (m: CopyRound, f: int)
      requires Valid() && Space(lo, mem0, p) && All(free0) !! Own(lo, mem0, p) && OutsideKept(mem0, mem, All(free0))
      requires Balanced(lo, mem, free, d, {}, All(free0)) && 0 <= v < USERPAGES && IsCopy(mem0, mem, p, d, v, data)
      modifies this`mem, this`head, this`free
      ensures m == Absent <==> !Present(Entry(mem0, p, v))
      ensures Valid() && OutsideKept(mem0, mem, All(free0))
      ensures m == PageDone ==> Balanced(lo, mem, free, d, {}, All(free0)) && IsCopy(mem0, mem, p, d, v + 1, data)
      ensures m == Short ==> Balanced(lo, mem, free, d, if f == 0 then {} else {f}, All(free0))
    {
      ParentKept(lo, mem0, free0, mem, p);
      f := 0;
      if !Present(mem[p][v / NPT]) {
        return Absent, f;
      }
      var t := Frame(mem[p][v / NPT]);
      InnerOwned(lo, mem, p, v / NPT);
      assert t == Table(mem, p, v / NPT) && mem[t][v % NPT] == Entry(mem, p, v);
      var pte := mem[t][v % NPT];
      if !Present(pte) {
        return Absent, f;
      }
      UserOwned(lo, mem, p, v);
      f := TakeFrame(d, mem[Frame(pte)], All(free0));
      if f == 0 {
        return Short, f;
      }
      ghost var mem1 := mem;
      var r := MapUser(d, v, f, Flags(pte), All(free0));
      UsersKeptOn(old(mem), mem1, mem, d);
      if r == NoMemory {
        return Short, f;
      }
      CopyStep(lo, mem0, old(mem), mem, p, d, v, f, data);
      m := PageDone;
    }

    /** Copies the parent p for a child: the same user pages on fresh frames, or nothing at all. */
    method Copyuvm(p: int, sz: int, data: int) returns (r: Copy, ok: bool)
      requires Valid() && KernelData(data) && Space(lo, mem, p) && All(free) !! Own(lo, mem, p) && 0 <= sz <= KERNBASE
      modifies this`mem, this`head, this`free
      ensures ok && Valid() && forall f | 0 <= f < NFRAMES && f !in old(free) :: mem[f] == old(mem)[f]
      ensures r.Copied? ==> Balanced(lo, mem, free, r.d, {}, All(old(free)))
                            && IsCopy(old(mem), mem, p, r.d, Pages(sz), data)
      ensures r.NoCopy? ==> All(free) == All(old(free))
      ensures r.NotPresent? ==> exists u :: 0 <= u < Pages(sz) && !Present(Entry(old(mem), p, u))
    {
      var d;
      d, ok := Setupkvm(data);
      if d == 0 {
        return NoCopy, ok;
      }
      KernelIsCopy(old(mem), mem, p, d, data);
      var m, f := CopyRange(p, d, Pages(sz), old(mem), old(free), data);
      if m == Absent {
        return NotPresent, ok;
      }
      if m == Short {
        if f != 0 {
          ExtraApart(lo, mem, free, d, {f}, All(old(free)), f);
          FrameGiven(lo, mem, free, d, f, Junk(head), All(old(free)));
          ok := Kfree(f);
        }
        ok := Freevm(d, {}, All(old(free)));
        assert forall g | g in free :: g in All(old(free));
        return NoCopy, ok;
      }
      r := Copied(d);
    }

    /** copyuvm's loop, by page number. */
    method CopyRange(p: int, d: int, n: int, ghost mem0: seq<Page>, ghost free0: seq<int>, ghost data: int)
      returns (m: CopyRound, f: int)
      requires Valid() && Space(lo, mem0, p) && All(free0) !! Own(lo, mem0, p) && OutsideKept(mem0, mem, All(free0))
      requires Balanced(lo, mem, free, d, {}, All(free0)) && 0 <= n <= USERPAGES && IsCopy(mem0, mem, p, d, 0, data)
      modifies this`mem, this`head, this`free
      ensures Valid() && OutsideKept(mem0, mem, All(free0))
      ensures m == PageDone ==> Balanced(lo, mem, free, d, {}, All(free0)) && IsCopy(mem0, mem, p, d, n, data)
      ensures m == Short ==> Balanced(lo, mem, free, d, if f == 0 then {} else {f}, All(free0))
      ensures m == Absent ==> exists u :: 0 <= u < n && !Present(Entry(mem0, p, u))
    {
      m, f := PageDone, 0;
      var v := 0;
      while v < n
        invariant 0 <= v <= n && m == PageDone && Valid() && OutsideKept(mem0, mem, All(free0))
        invariant Balanced(lo, mem, free, d, {}, All(free0)) && IsCopy(mem0, mem, p, d, v, data)
      {
        m, f := CopyPage(p, d, v, mem0, free0, data);
        if m != PageDone {
          assert m == Absent ==> !Present(Entry(mem0, p, v));
          return;
        }
        v := v + 1;
      }
    }
  }
}
