/** Two-level page tables over physical page frames (mmu.h, memlayout.h): what a page
    directory maps, and which frames it owns. */
module VmTables {

  const NPT := 1024               // entries of a page directory or a page table
  const PGSIZE := 4096
  const USERPAGES := 0x80000      // pages below KERNBASE
  const ALLPAGES := 0x100000
  const NFRAMES := 0xE000         // frames below PHYSTOP
  const KERNBASE := 0x80000000

  /** A frame as 32-bit words. */
  type Page = p: seq<int> | |p| == NPT witness seq(NPT, _ => 0)

  function Filled(w: int): Page
  {
    seq(NPT, _ => w)
  }

  predicate Present(w: int)
  {
    w % 2 == 1
  }

  function Frame(w: int): int
  {
    w / PGSIZE
  }

  function Flags(w: int): int
  {
    w % PGSIZE
  }

  /** Frame number and permissions put together, with PTE_P set. */
  function Pte(f: int, perm: int): int
  {
    f * PGSIZE + if perm % 2 == 1 then perm else perm + 1
  }

  lemma Split(f: int, x: int)
    requires 0 <= x < 4096
    ensures (f * 4096 + x) / 4096 == f && (f * 4096 + x) % 4096 == x
  {
  }

  lemma Parity(f: int, x: int)
    ensures (f * 4096 + x) % 2 == x % 2
  {
    assert f * 4096 + x == 2 * (f * 2048 + x / 2) + x % 2;
  }

  lemma PteFields(f: int, perm: int)
    requires 0 <= perm < PGSIZE
    ensures Present(Pte(f, perm)) && Frame(Pte(f, perm)) == f
    ensures Flags(Pte(f, perm)) == if perm % 2 == 1 then perm else perm + 1
  {
    var x := if perm % 2 == 1 then perm else perm + 1;
    Split(f, x);
    Parity(f, x);
  }

  /** The page table for the i-th stretch of NPT pages; 0 if there is none. */
  function Table(mem: seq<Page>, d: int, i: int): int
    requires 0 <= d < |mem| && 0 <= i < NPT
  {
    if Present(mem[d][i]) then Frame(mem[d][i]) else 0
  }

  /** The page table entry of virtual page v; 0 if there is no table. */
  function Entry(mem: seq<Page>, d: int, v: int): int
    requires 0 <= d < |mem| && 0 <= v < ALLPAGES
  {
    var t := Table(mem, d, v / NPT);
    if 0 < t < |mem| then mem[t][v % NPT] else 0
  }

  /** The frame behind user page v; 0 if none. */
  function User(mem: seq<Page>, d: int, v: int): int
    requires 0 <= d < |mem| && 0 <= v < USERPAGES
  {
    if Present(Entry(mem, d, v)) then Frame(Entry(mem, d, v)) else 0
  }

  /** Frames kalloc may hand out. */
  predicate Managed(lo: int, f: int)
  {
    0 < lo <= f < NFRAMES
  }

  ghost predicate TablesOk(lo: int, mem: seq<Page>, d: int)
  {
    && |mem| == NFRAMES && Managed(lo, d)
    && (forall i | 0 <= i < NPT && Present(mem[d][i]) :: Managed(lo, Table(mem, d, i)) && Table(mem, d, i) != d)
    && (forall i, j | 0 <= i < j < NPT :: Table(mem, d, i) != 0 ==> Table(mem, d, i) != Table(mem, d, j))
    && (forall i | 0 <= i < NPT && Present(mem[d][i]) :: Flags(mem[d][i]) == 7)   // PTE_P, PTE_W and PTE_U
  }

  ghost predicate IsTable(mem: seq<Page>, d: int, f: int)
    requires 0 <= d < |mem|
  {
    f != 0 && exists i :: 0 <= i < NPT && Table(mem, d, i) == f
  }

  ghost predicate IsUser(mem: seq<Page>, d: int, f: int)
    requires 0 <= d < |mem|
  {
    f != 0 && exists v :: 0 <= v < USERPAGES && User(mem, d, v) == f
  }

  /** An address space: directory, tables and user pages are distinct frames. */
  ghost predicate Space(lo: int, mem: seq<Page>, d: int)
  {
    && TablesOk(lo, mem, d)
    && (forall v | 0 <= v < USERPAGES && Present(Entry(mem, d, v)) ::
          Managed(lo, User(mem, d, v)) && User(mem, d, v) != d && !IsTable(mem, d, User(mem, d, v)))
    && (forall u, v | 0 <= u < v < USERPAGES :: User(mem, d, u) != 0 ==> User(mem, d, u) != User(mem, d, v))
  }

  /** The frames an address space owns. */
  ghost function Own(lo: int, mem: seq<Page>, d: int): set<int>
    requires 0 <= d < |mem|
  {
    set f | lo <= f < NFRAMES && (f == d || IsTable(mem, d, f) || IsUser(mem, d, f))
  }

  // ------------------------------------------------------- what the MMU does

  /** PTE_U and PTE_W. */
  predicate UserBit(w: int)
  {
    w / 4 % 2 == 1
  }

  predicate WriteBit(w: int)
  {
    w / 2 % 2 == 1
  }

  /** The processor finds page v: both the directory entry and the table entry are present. */
  predicate Reached(mem: seq<Page>, d: int, v: int)
    requires 0 <= d < |mem| && 0 <= v < ALLPAGES
  {
    Present(mem[d][v / NPT]) && 0 < Frame(mem[d][v / NPT]) < |mem| && Present(mem[Frame(mem[d][v / NPT])][v % NPT])
  }

  /** It lets a user program read it, or write it: both entries must say so. */
  predicate UserReads(mem: seq<Page>, d: int, v: int)
    requires 0 <= d < |mem| && 0 <= v < ALLPAGES
  {
    Reached(mem, d, v) && UserBit(mem[d][v / NPT]) && UserBit(mem[Frame(mem[d][v / NPT])][v % NPT])
  }

  predicate Writes(mem: seq<Page>, d: int, v: int)
    requires 0 <= d < |mem| && 0 <= v < ALLPAGES
  {
    Reached(mem, d, v) && WriteBit(mem[d][v / NPT]) && WriteBit(mem[Frame(mem[d][v / NPT])][v % NPT])
  }

  lemma Quarter(q: int, f: int)
    ensures (q * 4096 + f) / 4 == q * 1024 + f / 4
  {
    assert q * 4096 + f == 4 * (q * 1024 + f / 4) + f % 4;
  }

  lemma Half(q: int, f: int)
    ensures (q * 4096 + f) / 2 == q * 2048 + f / 2
  {
    assert q * 4096 + f == 2 * (q * 2048 + f / 2) + f % 2;
  }

  lemma EvenPart(q: int, m: int, x: int)
    requires m == 512 || m == 1024
    ensures (2 * (q * m) + x) % 2 == x % 2
  {
  }

  lemma FlagBits(w: int)
    ensures UserBit(w) <==> UserBit(Flags(w))
    ensures WriteBit(w) <==> WriteBit(Flags(w))
  {
    var q, f := Frame(w), Flags(w);
    Quarter(q, f);
    Half(q, f);
    EvenPart(q, 512, f / 4);
    EvenPart(q, 1024, f / 2);
  }

  lemma PteBits(f: int, perm: int)
    requires 0 <= perm < PGSIZE
    ensures (UserBit(Pte(f, perm)) <==> UserBit(perm)) && (WriteBit(Pte(f, perm)) <==> WriteBit(perm))
  {
    PteFields(f, perm);
    FlagBits(Pte(f, perm));
  }

  /** In an address space a page is mapped, readable for users and writable exactly as its own
      table entry says: the directory never forbids anything. */
  lemma AccessIs(lo: int, mem: seq<Page>, d: int, v: int)
    requires Space(lo, mem, d) && 0 <= v < ALLPAGES
    ensures Reached(mem, d, v) <==> Present(Entry(mem, d, v))
    ensures UserReads(mem, d, v) <==> Present(Entry(mem, d, v)) && UserBit(Entry(mem, d, v))
    ensures Writes(mem, d, v) <==> Present(Entry(mem, d, v)) && WriteBit(Entry(mem, d, v))
  {
    var w := mem[d][v / NPT];
    if Present(w) {
      FlagBits(w);
      assert Managed(lo, Table(mem, d, v / NPT));
    }
  }

  // ------------------------------------------------------------ frames

  /** Only the directory and its tables matter for what is mapped. */
  lemma EntryFrame(mem: seq<Page>, mem': seq<Page>, d: int)
    requires 0 <= d < |mem| == |mem'| && mem'[d] == mem[d]
    requires forall i | 0 <= i < NPT && 0 < Table(mem, d, i) < |mem| :: mem'[Table(mem, d, i)] == mem[Table(mem, d, i)]
    ensures forall i | 0 <= i < NPT :: Table(mem', d, i) == Table(mem, d, i)
    ensures forall v | 0 <= v < ALLPAGES :: Entry(mem', d, v) == Entry(mem, d, v)
  {
    forall v | 0 <= v < ALLPAGES ensures Entry(mem', d, v) == Entry(mem, d, v) {
      assert Table(mem', d, v / NPT) == Table(mem, d, v / NPT);
    }
  }

  lemma SpaceFrame(lo: int, mem: seq<Page>, mem': seq<Page>, d: int)
    requires Space(lo, mem, d) && |mem| == |mem'|
    requires forall f | f in Own(lo, mem, d) && !IsUser(mem, d, f) :: mem'[f] == mem[f]
    ensures forall v | 0 <= v < ALLPAGES :: Entry(mem', d, v) == Entry(mem, d, v)
    ensures Space(lo, mem', d) && Own(lo, mem', d) == Own(lo, mem, d)
  {
    assert d in Own(lo, mem, d);
    assert !IsUser(mem, d, d);
    forall i | 0 <= i < NPT && 0 < Table(mem, d, i) < |mem| ensures mem'[Table(mem, d, i)] == mem[Table(mem, d, i)] {
      assert IsTable(mem, d, Table(mem, d, i));
      assert Table(mem, d, i) in Own(lo, mem, d);
    }
    EntryFrame(mem, mem', d);
    SameMaps(lo, mem, mem', d);
  }

  lemma SameMaps(lo: int, mem: seq<Page>, mem': seq<Page>, d: int)
    requires Space(lo, mem, d) && |mem| == |mem'|
    requires mem'[d] == mem[d]
    requires forall v | 0 <= v < USERPAGES :: Entry(mem', d, v) == Entry(mem, d, v)
    ensures Space(lo, mem', d) && Own(lo, mem', d) == Own(lo, mem, d)
  {
    forall f ensures IsTable(mem', d, f) == IsTable(mem, d, f) && IsUser(mem', d, f) == IsUser(mem, d, f) {
      if IsTable(mem, d, f) {
        var i :| 0 <= i < NPT && Table(mem, d, i) == f;
        assert Table(mem', d, i) == f;
      }
      if IsTable(mem', d, f) {
        var i :| 0 <= i < NPT && Table(mem', d, i) == f;
        assert Table(mem, d, i) == f;
      }
      if IsUser(mem, d, f) {
        var v :| 0 <= v < USERPAGES && User(mem, d, v) == f;
        assert User(mem', d, v) == f;
      }
      if IsUser(mem', d, f) {
        var v :| 0 <= v < USERPAGES && User(mem', d, v) == f;
        assert User(mem, d, v) == f;
      }
    }
  }

  // ----------------------------------------------------------- changes

  function WithTable(mem: seq<Page>, d: int, i: int, t: int): seq<Page>
    requires 0 <= d < |mem| && 0 <= i < NPT && 0 <= t < |mem|
  {
    mem[t := Filled(0)][d := mem[d][i := Pte(t, 6)]]
  }

  lemma TableMaps(lo: int, mem: seq<Page>, d: int, i: int, t: int)
    requires Space(lo, mem, d) && 0 <= i < NPT && Table(mem, d, i) == 0 && Managed(lo, t) && t !in Own(lo, mem, d)
    ensures var mem' := WithTable(mem, d, i, t);
            && (forall j | 0 <= j < NPT :: Table(mem', d, j) == if j == i then t else Table(mem, d, j))
            && (forall v | 0 <= v < ALLPAGES :: Entry(mem', d, v) == Entry(mem, d, v))
  {
    var mem' := WithTable(mem, d, i, t);
    PteFields(t, 6);
    forall v | 0 <= v < ALLPAGES ensures Entry(mem', d, v) == Entry(mem, d, v) {
      var j := v / NPT;
      if j != i && Table(mem, d, j) != 0 {
        assert IsTable(mem, d, Table(mem, d, j));
        assert Table(mem, d, j) in Own(lo, mem, d);
      }
    }
  }

  /** A new, empty page table: one more frame is owned, and nothing more is mapped. */
  lemma TableAdded(lo: int, mem: seq<Page>, d: int, i: int, t: int)
    requires Space(lo, mem, d) && 0 <= i < NPT && Table(mem, d, i) == 0 && Managed(lo, t) && t !in Own(lo, mem, d)
    ensures var mem' := WithTable(mem, d, i, t); Space(lo, mem', d) && Own(lo, mem', d) == Own(lo, mem, d) + {t}
  {
    var mem' := WithTable(mem, d, i, t);
    TableMaps(lo, mem, d, i, t);
    assert forall v | 0 <= v < USERPAGES :: User(mem', d, v) == User(mem, d, v);
    forall f | f != 0 ensures IsTable(mem', d, f) <==> f == t || IsTable(mem, d, f) {
      assert Table(mem', d, i) == t;
      if IsTable(mem, d, f) {
        var j :| 0 <= j < NPT && Table(mem, d, j) == f;
        assert Table(mem', d, j) == f;
      }
      if IsTable(mem', d, f) && f != t {
        var j :| 0 <= j < NPT && Table(mem', d, j) == f;
        assert Table(mem, d, j) == f;
      }
    }
    forall f ensures IsUser(mem', d, f) == IsUser(mem, d, f) {
      UserSame(mem, mem', d, f);
    }
    forall j | 0 <= j < NPT && Table(mem, d, j) != 0 ensures Table(mem, d, j) != t {
      assert IsTable(mem, d, Table(mem, d, j));
      assert Table(mem, d, j) in Own(lo, mem, d);
    }
    forall v | 0 <= v < USERPAGES && User(mem, d, v) != 0 ensures User(mem, d, v) != t {
      assert IsUser(mem, d, User(mem, d, v));
      assert User(mem, d, v) in Own(lo, mem, d);
    }
  }

  lemma UserSame(mem: seq<Page>, mem': seq<Page>, d: int, f: int)
    requires 0 <= d < |mem| == |mem'| && forall v | 0 <= v < USERPAGES :: User(mem', d, v) == User(mem, d, v)
    ensures IsUser(mem', d, f) == IsUser(mem, d, f)
  {
    if IsUser(mem, d, f) {
      var v :| 0 <= v < USERPAGES && User(mem, d, v) == f;
      assert User(mem', d, v) == f;
    }
    if IsUser(mem', d, f) {
      var v :| 0 <= v < USERPAGES && User(mem', d, v) == f;
      assert User(mem, d, v) == f;
    }
  }

  function WithEntry(mem: seq<Page>, t: int, v: int, w: int): seq<Page>
    requires 0 <= t < |mem| && 0 <= v
  {
    mem[t := mem[t][v % NPT := w]]
  }

  lemma EntrySet(lo: int, mem: seq<Page>, d: int, t: int, v: int, w: int)
    requires TablesOk(lo, mem, d) && 0 <= v < ALLPAGES && t == Table(mem, d, v / NPT) != 0
    ensures var mem' := WithEntry(mem, t, v, w);
            && (forall i | 0 <= i < NPT :: Table(mem', d, i) == Table(mem, d, i))
            && (forall u | 0 <= u < ALLPAGES :: Entry(mem', d, u) == if u == v then w else Entry(mem, d, u))
  {
    var mem' := WithEntry(mem, t, v, w);
    forall u | 0 <= u < ALLPAGES ensures Entry(mem', d, u) == if u == v then w else Entry(mem, d, u) {
      var i, j := v / NPT, u / NPT;
      assert i < j ==> Table(mem, d, i) != Table(mem, d, j);
      assert j < i && Table(mem, d, j) != 0 ==> Table(mem, d, j) != Table(mem, d, i);
    }
  }

  lemma TableSame(mem: seq<Page>, mem': seq<Page>, d: int, f: int)
    requires 0 <= d < |mem| == |mem'| && forall i | 0 <= i < NPT :: Table(mem', d, i) == Table(mem, d, i)
    ensures IsTable(mem', d, f) == IsTable(mem, d, f)
  {
    if IsTable(mem, d, f) {
      var i :| 0 <= i < NPT && Table(mem, d, i) == f;
      assert Table(mem', d, i) == f;
    }
    if IsTable(mem', d, f) {
      var i :| 0 <= i < NPT && Table(mem', d, i) == f;
      assert Table(mem, d, i) == f;
    }
  }

  /** A frame of no one becomes user page v. */
  lemma PageMapped(lo: int, mem: seq<Page>, d: int, t: int, v: int, f: int, perm: int)
    requires Space(lo, mem, d) && 0 <= v < USERPAGES && t == Table(mem, d, v / NPT) != 0 && 0 <= perm < PGSIZE
    requires !Present(Entry(mem, d, v)) && Managed(lo, f) && f !in Own(lo, mem, d)
    ensures var mem' := WithEntry(mem, t, v, Pte(f, perm));
            Space(lo, mem', d) && Own(lo, mem', d) == Own(lo, mem, d) + {f}
  {
    var mem' := WithEntry(mem, t, v, Pte(f, perm));
    EntrySet(lo, mem, d, t, v, Pte(f, perm));
    PteFields(f, perm);
    assert forall u | 0 <= u < USERPAGES :: User(mem', d, u) == if u == v then f else User(mem, d, u);
    forall g ensures IsTable(mem', d, g) == IsTable(mem, d, g) {
      TableSame(mem, mem', d, g);
    }
    assert User(mem', d, v) == f;
    forall g | g != 0 ensures IsUser(mem', d, g) <==> g == f || IsUser(mem, d, g) {
      if IsUser(mem, d, g) {
        var u :| 0 <= u < USERPAGES && User(mem, d, u) == g;
        assert User(mem', d, u) == g;
      }
      if IsUser(mem', d, g) && g != f {
        var u :| 0 <= u < USERPAGES && User(mem', d, u) == g;
        assert User(mem, d, u) == g;
      }
    }
    forall u | 0 <= u < USERPAGES && User(mem, d, u) != 0 ensures User(mem, d, u) != f {
      assert IsUser(mem, d, User(mem, d, u));
      assert User(mem, d, u) in Own(lo, mem, d);
    }
  }

  /** User page v is given up. */
  lemma PageUnmapped(lo: int, mem: seq<Page>, d: int, t: int, v: int)
    requires Space(lo, mem, d) && 0 <= v < USERPAGES && t == Table(mem, d, v / NPT) != 0 && Present(Entry(mem, d, v))
    requires User(mem, d, v) != 0
    ensures var mem' := WithEntry(mem, t, v, 0);
            Space(lo, mem', d) && Own(lo, mem', d) == Own(lo, mem, d) - {User(mem, d, v)}
    ensures User(mem, d, v) in Own(lo, mem, d)
  {
    var mem', f := WithEntry(mem, t, v, 0), User(mem, d, v);
    EntrySet(lo, mem, d, t, v, 0);
    assert forall u | 0 <= u < USERPAGES :: User(mem', d, u) == if u == v then 0 else User(mem, d, u);
    forall g ensures IsTable(mem', d, g) == IsTable(mem, d, g) {
      TableSame(mem, mem', d, g);
    }
    assert IsUser(mem, d, f);
    forall g | g != 0 ensures IsUser(mem', d, g) <==> g != f && IsUser(mem, d, g) {
      if IsUser(mem, d, g) && g != f {
        var u :| 0 <= u < USERPAGES && User(mem, d, u) == g;
        assert User(mem', d, u) == g;
      }
      if IsUser(mem', d, g) {
        var u :| 0 <= u < USERPAGES && User(mem', d, u) == g;
        assert u != v && User(mem, d, u) == g;
      }
    }
  }

  /** Kernel entries own nothing. */
  lemma KernelMapped(lo: int, mem: seq<Page>, d: int, t: int, v: int, w: int)
    requires Space(lo, mem, d) && USERPAGES <= v < ALLPAGES && t == Table(mem, d, v / NPT) != 0
    ensures var mem' := WithEntry(mem, t, v, w); Space(lo, mem', d) && Own(lo, mem', d) == Own(lo, mem, d)
  {
    EntrySet(lo, mem, d, t, v, w);
    SameMaps(lo, mem, WithEntry(mem, t, v, w), d);
  }
}
