/** malloc, free and morecore in their own form: loops that walk the circular list
    through the headers in memory. */
module UMallocKernel {
  import opened Common
  import opened UMalloc

  /** What sbrk grants lies above all blocks there are. */
  ghost predicate Beyond(grant: int, fl: seq<Block>, live: seq<Block>)
  {
    && grant > BASE && (forall i | 0 <= i < |fl| :: fl[i].End() <= grant)
    && forall i | 0 <= i < |live| :: live[i].End() <= grant
  }

  /** The grant has entered the list, and block k of that was carved. */
  ghost predicate Refilled(fl: seq<Block>, fl': seq<Block>, grant: int, k: int, nunits: int)
  {
    && |fl| >= 1
    && var all := Insert(fl, Block(grant, Wanted(nunits)));
    0 <= k < |all| && fl' == Carved(all, k, nunits)
  }

  class Allocator {
    var mem: Memory      // the headers
    var freep: int       // 0 before the first malloc
    ghost var fl: seq<Block>
    ghost var live: seq<Block>
    ghost var total: int
    ghost var rover: int   // freep is block rover of fl

    /** Live blocks carry their size in their header. */
    ghost predicate Sized()
      reads this
    {
      forall i | 0 <= i < |live| :: live[i].addr in mem && mem[live[i].addr].size == live[i].units
    }

    ghost predicate Valid()
      reads this
    {
      if freep == 0 then fl == [] && live == [] && total == 0
      else && HeapOk(fl, live, total) && Linked(mem, fl) && Sized()
           && 0 <= rover < |fl| && freep == fl[rover].addr
    }

    constructor ()
      ensures Valid() && freep == 0
    {
      mem, freep := map[], 0;
      fl, live, total, rover := [], [], 0, 0;
    }

    /** free's walk: from freep around the list to the block below bp. */
    method FindBelow(bp: int, ghost b: Block) returns (p: int)
      requires freep != 0 && FreeOk(fl) && Linked(mem, fl) && 0 <= rover < |fl| && freep == fl[rover].addr
      requires b.addr == bp > BASE && b.units >= 1 && forall i | 1 <= i < |fl| :: Apart(b, fl[i])
      ensures p == fl[Below(fl, bp)].addr
    {
      ghost var target := Below(fl, bp);
      BelowCuts(fl, b);
      CutOwns(fl, b, target);
      ghost var k := rover;
      p := freep;
      assert LinkAt(mem, fl, k);
      while !(bp > p && bp < mem[p].ptr)
        invariant 0 <= k < |fl| && p == fl[k].addr && LinkAt(mem, fl, k)
        decreases if k <= target then target - k else target - k + |fl|
      {
        Around(fl, b, k, target);
        if p >= mem[p].ptr && (bp > p || bp < mem[p].ptr) {
          break;
        }
        p := mem[p].ptr;
        k := Succ(|fl|, k);
        assert LinkAt(mem, fl, k);
      }
      Around(fl, b, k, target);
    }

    /** free, for a block that carries its size: find its place and link it in. */
    method Unite(bp: int, ghost b: Block)
      requires freep != 0 && FreeOk(fl) && Linked(mem, fl) && 0 <= rover < |fl| && freep == fl[rover].addr
      requires b.addr == bp > BASE && b.units >= 1 && forall i | 1 <= i < |fl| :: Apart(b, fl[i])
      requires bp in mem && mem[bp].size == b.units
      modifies this`mem, this`freep, this`fl, this`rover
      ensures fl == Insert(old(fl), b) && Linked(mem, fl)
      ensures 0 <= rover < |fl| && freep == fl[rover].addr
      ensures freep == old(fl)[Below(old(fl), bp)].addr && freep != 0
      ensures forall x | x in old(mem) && x != bp && x != freep :: x in mem && mem[x] == old(mem)[x]
    {
      FreeLinks(mem, fl, b);
      ghost var k := Below(fl, bp);
      assert k > 0 ==> fl[0].End() < fl[k].addr;
      var p := FindBelow(bp, b);
      LinkIn(p, bp);
      freep := p;
      fl, rover := Insert(fl, b), k;
    }

    /** The header assignments of free, p being the block below bp. */
    method LinkIn(p: int, bp: int)
      requires p in mem && bp in mem && mem[p].ptr in mem && p != bp
      modifies this`mem
      ensures mem == FreeMem(old(mem), p, bp)
      ensures forall x | x in old(mem) && x != bp && x != p :: x in mem && mem[x] == old(mem)[x]
    {
      if bp + mem[bp].size == mem[p].ptr {
        mem := mem[bp := Header(mem[mem[p].ptr].ptr, mem[bp].size + mem[mem[p].ptr].size)];
      } else {
        mem := mem[bp := Header(mem[p].ptr, mem[bp].size)];
      }
      if p + mem[p].size == bp {
        mem := mem[p := Header(mem[bp].ptr, mem[p].size + mem[bp].size)];
      } else {
        mem := mem[p := Header(bp, mem[p].size)];
      }
    }

    /** free(ap), where ap was returned by malloc for live block i. */
    method Free(ap: int, ghost i: int)
      requires Valid() && freep != 0 && 0 <= i < |live| && live[i].addr + 1 == ap
      modifies this
      ensures Valid() && freep != 0
      ensures fl == Insert(old(fl), old(live)[i]) && live == Without(old(live), i) && total == old(total)
    {
      ghost var b := live[i];
      FreeKeeps(fl, live, total, i);
      Unite(ap - 1, b);
      live := Without(live, i);
      StaysSized(old(mem), old(fl), old(live), i, Below(old(fl), b.addr), mem);
    }

    /** morecore.  grant is what sbrk returned: 0 for failure, or memory above all the
        memory it gave before. */
    method Morecore(n: int, grant: int) returns (r: int)
      requires Valid() && freep != 0 && n >= 1
      requires grant != 0 ==> Beyond(grant, fl, live)
      modifies this
      ensures Valid() && freep != 0 && live == old(live)
      ensures grant == 0 ==> r == 0 && fl == old(fl) && total == old(total) && rover == old(rover)
      ensures grant != 0 ==> r == freep && total == old(total) + Wanted(n)
                             && fl == Insert(old(fl), Block(grant, Wanted(n)))
    {
      var nu := n;
      if nu < MORE {
        nu := MORE;
      }
      if grant == 0 {
        return 0;
      }
      AddBlock(grant, nu);
      r := freep;
    }

    /** The rest of morecore: the new block gets its size and is freed. */
    method AddBlock(grant: int, nu: int)
      requires Valid() && freep != 0 && nu >= 1 && grant > BASE
      requires (forall i | 0 <= i < |fl| :: fl[i].End() <= grant)
               && forall i | 0 <= i < |live| :: live[i].End() <= grant
      modifies this
      ensures Valid() && freep != 0 && live == old(live)
      ensures total == old(total) + nu && fl == Insert(old(fl), Block(grant, nu))
    {
      ghost var b := Block(grant, nu);
      GrowKeeps(fl, live, total, b);
      GrowSized(fl, live, b);
      var p := if grant in mem then mem[grant].ptr else 0;
      mem := mem[grant := Header(p, nu)];
      GrowLinked(old(mem), fl, b, mem);
      ghost var m := mem;
      Unite(grant, b);
      GrowStays(old(mem), m, mem, old(fl), live, grant, freep, Below(old(fl), grant));
      total := total + nu;
    }

    /** The end of malloc: take nu units from block k, whose predecessor is prevp. */
    method Take(prevp: int, p: int, nu: int, ghost k: int) returns (ap: int)
      requires Valid() && freep != 0 && 1 <= k < |fl| && 1 <= nu <= fl[k].units
      requires p == fl[k].addr && prevp == fl[k - 1].addr
      modifies this
      ensures Valid() && freep == prevp != 0 && total == old(total)
      ensures fl == Carved(old(fl), k, nu) && live == old(live) + [Given(old(fl), k, nu)]
      ensures ap == Given(old(fl), k, nu).addr + 1 && ap - 1 + nu == old(fl)[k].End() && rover == k - 1
    {
      MallocKeeps(fl, live, total, k, nu);
      TakeLinks(mem, fl, live, k, nu);
      var q := TakeUnits(prevp, p, nu);
      freep := prevp;
      fl, live, rover := Carved(fl, k, nu), live + [Given(fl, k, nu)], k - 1;
      ap := q + 1;
    }

    /** The headers that change when nu units are taken from block p. */
    method TakeUnits(prevp: int, p: int, nu: int) returns (q: int)
      requires prevp in mem && p in mem
      modifies this`mem
      ensures mem == TakeMem(old(mem), prevp, p, nu) && q == p + old(mem)[p].size - nu
    {
      q := p;
      if mem[p].size == nu {
        mem := mem[prevp := Header(mem[p].ptr, mem[prevp].size)];
      } else {
        mem := mem[p := Header(mem[p].ptr, mem[p].size - nu)];
        q := p + mem[p].size;
        mem := mem[q := Header(0, nu)];
      }
    }

    /** One turn of malloc's loop around the list, from behind freep back to freep. */
    method Turn(nunits: int) returns (found: bool, prevp: int, p: int, ghost k: int)
      requires freep != 0 && FreeOk(fl) && Linked(mem, fl) && 0 <= rover < |fl| && freep == fl[rover].addr
      requires nunits >= 1
      ensures found ==> FirstFit(fl, rover, k, nunits) && 1 <= k < |fl| && p == fl[k].addr && prevp == fl[k - 1].addr
      ensures !found ==> NoneFits(fl, nunits)
    {
      prevp := freep;
      assert LinkAt(mem, fl, rover);
      p := mem[prevp].ptr;
      k := Succ(|fl|, rover);
      ghost var c := 0;
      while true
        invariant 0 <= c < |fl| && k == Nth(|fl|, rover, c) && p == fl[k].addr && prevp == fl[Before(|fl|, k)].addr
        invariant Tested(fl, rover, c, nunits)
        decreases |fl| - c
      {
        assert LinkAt(mem, fl, k);
        if mem[p].size >= nunits {
          FitFound(fl, rover, c, k, nunits);
          return true, prevp, p, k;
        }
        if p == freep {
          OneAddress(fl, k, rover);
          AllTested(fl, rover, c, nunits);
          return false, prevp, p, k;
        }
        NextTested(fl, rover, c, k, nunits);
        c, k := c + 1, Succ(|fl|, k);
        prevp := p;
        p := mem[p].ptr;
      }
    }

    /** A turn around the list, and the memory if it finds any. */
    method Grab(nunits: int) returns (ap: int, ghost k: int)
      requires Valid() && freep != 0 && nunits >= 1
      modifies this
      ensures Valid() && freep != 0 && total == old(total)
      ensures ap == 0 ==> NoneFits(old(fl), nunits) && fl == old(fl) && live == old(live) && rover == old(rover)
      ensures ap != 0 ==> && CarvedFirst(old(fl), old(rover), fl, k, nunits)
                          && live == old(live) + [Block(ap - 1, nunits)]
                          && ap - 1 + nunits == old(fl)[k].End() && rover == k - 1
    {
      var found, prevp, p;
      found, prevp, p, k := Turn(nunits);
      if found {
        assert fl[0].End() < fl[k].addr;
        ap := Take(prevp, p, nunits, k);
      } else {
        ap := 0;
      }
    }

    /** malloc once the list exists.  grant is what sbrk would return, should morecore
        call it; cores counts the calls of morecore; k is the block carved. */
    method Allocate(nunits: int, grant: int) returns (ap: int, ghost cores: nat, ghost k: int)
      requires Valid() && freep != 0 && nunits >= 1
      requires grant != 0 ==> Beyond(grant, fl, live)
      modifies this
      ensures Valid() && freep != 0 && cores <= 1
      ensures ap == 0 ==> && grant == 0 && cores == 1 && NoneFits(old(fl), nunits)
                          && fl == old(fl) && live == old(live) && total == old(total)
      ensures ap != 0 ==> live == old(live) + [Block(ap - 1, nunits)]
      ensures ap != 0 && cores == 0 ==> && CarvedFirst(old(fl), old(rover), fl, k, nunits) && total == old(total)
                                        && ap - 1 + nunits == old(fl)[k].End() && rover == k - 1
      ensures ap != 0 && cores == 1 ==> && NoneFits(old(fl), nunits) && total == old(total) + Wanted(nunits)
                                        && Refilled(old(fl), fl, grant, k, nunits)
    {
      cores := 0;
      ap, k := Grab(nunits);
      if ap != 0 {
        return;
      }
      cores := 1;
      assert grant != 0 ==> Beyond(grant, fl, live);
      ap, k := Refill(nunits, grant);
      assert ap != 0 ==> Refilled(old(fl), fl, grant, k, nunits);
    }

    /** The end of a fruitless turn: morecore, and the turn after it, which succeeds. */
    method Refill(nunits: int, grant: int) returns (ap: int, ghost k: int)
      requires Valid() && freep != 0 && nunits >= 1
      requires grant != 0 ==> Beyond(grant, fl, live)
      modifies this
      ensures Valid() && freep != 0
      ensures ap == 0 ==> grant == 0 && fl == old(fl) && live == old(live) && total == old(total)
      ensures ap != 0 ==> && live == old(live) + [Block(ap - 1, nunits)] && total == old(total) + Wanted(nunits)
                          && Refilled(old(fl), fl, grant, k, nunits)
    {
      var core := Morecore(nunits, grant);
      if core == 0 {
        return 0, 0;
      }
      NewFits(old(fl), Block(grant, Wanted(nunits)), nunits);
      assert !NoneFits(fl, nunits);
      ap, k := Grab(nunits);
      assert ap != 0 && Refilled(old(fl), fl, grant, k, nunits);
    }

    /** malloc's first call: the list is base alone, pointing to itself. */
    method StartList()
      requires Valid() && freep == 0
      modifies this
      ensures Valid() && freep != 0 && fl == [Block(BASE, 0)] && live == [] && total == 0
    {
      mem := mem[BASE := Header(BASE, 0)];
      freep := BASE;
      fl, rover := [Block(BASE, 0)], 0;
      assert Total(fl) == 0;
    }

    /** malloc */
    method Malloc(nbytes: nat, grant: int) returns (ap: int, ghost cores: nat, ghost k: int)
      requires Valid()
      requires grant != 0 ==> Beyond(grant, fl, live)
      modifies this
      ensures Valid() && freep != 0 && cores <= 1
      ensures ap == 0 ==> && grant == 0 && cores == 1 && NoneFits(fl, Units(nbytes))
                          && live == old(live) && total == old(total)
      ensures ap != 0 ==> live == old(live) + [Block(ap - 1, Units(nbytes))]
      ensures ap != 0 ==> total == old(total) + if cores == 1 then Wanted(Units(nbytes)) else 0
      ensures old(freep) != 0 && ap != 0 && cores == 0 ==>
                && CarvedFirst(old(fl), old(rover), fl, k, Units(nbytes))
                && ap - 1 + Units(nbytes) == old(fl)[k].End() && rover == k - 1
      ensures old(freep) != 0 && cores == 1 ==> NoneFits(old(fl), Units(nbytes))
    {
      var nunits := Units(nbytes);
      if freep == 0 {
        StartList();
      }
      ap, cores, k := Allocate(nunits, grant);
    }
  }

  /** A header and enough units for the bytes, and no more than one unit over. */
  function Units(nbytes: nat): (nu: int)
    ensures nu >= 1 && (nu - 1) * UNIT >= nbytes && (nu - 2) * UNIT < nbytes
  {
    (nbytes + UNIT - 1) / UNIT + 1
  }

  /** The index reached c steps after the first one behind r, around a list of n. */
  function Nth(n: int, r: int, c: int): int
  {
    if r + 1 + c < n then r + 1 + c else r + 1 + c - n
  }

  function Before(n: int, k: int): int
  {
    if k == 0 then n - 1 else k - 1
  }

  predicate NoneFits(fl: seq<Block>, nu: int)
  {
    forall i | 0 <= i < |fl| :: fl[i].units < nu
  }

  /** Block k is the first one behind r, around the list, with nu units. */
  ghost predicate FirstFit(fl: seq<Block>, r: int, k: int, nu: int)
  {
    && 0 <= k < |fl| && fl[k].units >= nu
    && exists c :: 0 <= c < |fl| && k == Nth(|fl|, r, c) && Tested(fl, r, c, nu)
  }

  /** The first c blocks behind r are too small. */
  predicate Tested(fl: seq<Block>, r: int, c: int, nu: int)
  {
    forall d | 0 <= d < c :: 0 <= Nth(|fl|, r, d) < |fl| && fl[Nth(|fl|, r, d)].units < nu
  }

  lemma FitFound(fl: seq<Block>, r: int, c: int, k: int, nu: int)
    requires FreeOk(fl) && nu >= 1 && 0 <= r < |fl| && 0 <= c < |fl| && k == Nth(|fl|, r, c) && Tested(fl, r, c, nu)
    requires fl[k].units >= nu
    ensures FirstFit(fl, r, k, nu) && 1 <= k && Before(|fl|, k) == k - 1
  {
  }

  /** The units came from that block. */
  ghost predicate CarvedFirst(fl: seq<Block>, r: int, fl': seq<Block>, k: int, nu: int)
  {
    FirstFit(fl, r, k, nu) && fl' == Carved(fl, k, nu)
  }

  /** The headers of live blocks are as they were. */
  lemma GrowStays(mem: Memory, mem1: Memory, mem2: Memory, fl: seq<Block>, live: seq<Block>, grant: int, p: int, k: int)
    requires forall i | 0 <= i < |live| ::
               live[i].addr in mem && mem[live[i].addr].size == live[i].units && live[i].addr != grant
    requires forall i, j | 0 <= i < |live| && 0 <= j < |fl| :: live[i].addr != fl[j].addr
    requires 0 <= k < |fl| && p == fl[k].addr
    requires forall x | x in mem && x != grant :: x in mem1 && mem1[x] == mem[x]
    requires forall x | x in mem1 && x != grant && x != p :: x in mem2 && mem2[x] == mem1[x]
    ensures forall i | 0 <= i < |live| :: live[i].addr in mem2 && mem2[live[i].addr].size == live[i].units
  {
  }

  lemma OneAddress(fl: seq<Block>, i: int, j: int)
    requires FreeOk(fl) && 0 <= i < |fl| && 0 <= j < |fl| && fl[i].addr == fl[j].addr
    ensures i == j
  {
  }

  /** Once the walk is back at the rover every block has been looked at. */
  lemma AllTested(fl: seq<Block>, r: int, c: int, nu: int)
    requires 0 <= r < |fl| && 0 <= c < |fl| && Nth(|fl|, r, c) == r && fl[r].units < nu
    requires Tested(fl, r, c, nu)
    ensures NoneFits(fl, nu)
  {
    forall i | 0 <= i < |fl| ensures fl[i].units < nu {
      var d := if i > r then i - r - 1 else i - r - 1 + |fl|;
      assert Nth(|fl|, r, d) == i;
    }
  }

  lemma NextTested(fl: seq<Block>, r: int, c: int, k: int, nu: int)
    requires 0 <= r < |fl| && 0 <= c < |fl| && k == Nth(|fl|, r, c) && fl[k].addr != fl[r].addr
    requires Tested(fl, r, c, nu) && fl[k].units < nu
    ensures Tested(fl, r, c + 1, nu) && c + 1 < |fl| && Succ(|fl|, k) == Nth(|fl|, r, c + 1)
            && Before(|fl|, Succ(|fl|, k)) == k
  {
  }

  /** After morecore some block is large enough. */
  lemma NewFits(fl: seq<Block>, b: Block, nu: int)
    requires FreeOk(fl) && b.addr > BASE && b.units >= nu >= 1
    requires forall i | 0 <= i < |fl| :: fl[i].End() <= b.addr
    ensures !NoneFits(Insert(fl, b), nu)
  {
    var k := Below(fl, b.addr);
    assert |fl| > 1 ==> fl[|fl| - 1].addr < b.addr;
    assert k == |fl| - 1;
    JoinedAlone(fl, b, k);
    var big := if TouchesLeft(fl, b, k) then k else k + 1;
    assert Insert(fl, b)[big].units >= nu;
  }

  function TakeMem(mem: Memory, prevp: int, p: int, nu: int): Memory
    requires prevp in mem && p in mem
  {
    if mem[p].size == nu then mem[prevp := Header(mem[p].ptr, mem[prevp].size)]
    else mem[p := Header(mem[p].ptr, mem[p].size - nu)][p + mem[p].size - nu := Header(0, nu)]
  }

  lemma TakeLinks(mem: Memory, fl: seq<Block>, live: seq<Block>, k: int, nu: int)
    requires FreeOk(fl) && Linked(mem, fl) && 1 <= k < |fl| && 1 <= nu <= fl[k].units
    requires forall j | 0 <= j < |live| :: live[j].units >= 1 && live[j].addr > BASE
    requires forall j, l | 0 <= j < |live| && 1 <= l < |fl| :: Apart(live[j], fl[l])
    requires forall j | 0 <= j < |live| :: live[j].addr in mem && mem[live[j].addr].size == live[j].units
    ensures fl[k].addr in mem && fl[k - 1].addr in mem && fl[k - 1].addr != 0 && mem[fl[k].addr].size == fl[k].units
    ensures var m := TakeMem(mem, fl[k - 1].addr, fl[k].addr, nu);
            var all := live + [Given(fl, k, nu)];
            && Linked(m, Carved(fl, k, nu))
            && (forall j | 0 <= j < |all| :: all[j].addr in m && m[all[j].addr].size == all[j].units)
            && Carved(fl, k, nu)[k - 1].addr == fl[k - 1].addr
  {
    assert LinkAt(mem, fl, k) && LinkAt(mem, fl, k - 1);
    assert k > 1 ==> fl[0].End() < fl[k - 1].addr;
    assert fl[k - 1].End() < fl[k].addr;
    var m := TakeMem(mem, fl[k - 1].addr, fl[k].addr, nu);
    if fl[k].units == nu {
      WholeLinks(mem, fl, k, m);
    } else {
      PartLinks(mem, fl, k, nu, m, Header(0, nu));
    }
    TakeSized(mem, fl, live, k, nu, m);
  }

  /** The new block's header has its size; no other live block's header changed. */
  lemma TakeSized(mem: Memory, fl: seq<Block>, live: seq<Block>, k: int, nu: int, m: Memory)
    requires FreeOk(fl) && Linked(mem, fl) && 1 <= k < |fl| && 1 <= nu <= fl[k].units
    requires forall j | 0 <= j < |live| :: live[j].units >= 1 && live[j].addr > BASE
    requires forall j, l | 0 <= j < |live| && 1 <= l < |fl| :: Apart(live[j], fl[l])
    requires forall j | 0 <= j < |live| :: live[j].addr in mem && mem[live[j].addr].size == live[j].units
    requires forall x | x in mem && x != fl[k - 1].addr && x != fl[k].addr && x != fl[k].End() - nu ::
               x in m && m[x] == mem[x]
    requires fl[k].End() - nu in m && m[fl[k].End() - nu].size == nu
    ensures var all := live + [Given(fl, k, nu)];
            forall j | 0 <= j < |all| :: all[j].addr in m && m[all[j].addr].size == all[j].units
  {
    forall j | 0 <= j < |live| ensures live[j].addr in m && m[live[j].addr].size == live[j].units {
      assert Apart(live[j], fl[k]);
      assert k - 1 >= 1 ==> Apart(live[j], fl[k - 1]);
    }
  }

  function Wanted(n: int): (w: int)
    ensures w >= n && w >= 4096 && (w == n || w == 4096)
  {
    if n < MORE then MORE else n
  }

  /** Neither free nor morecore touches the header of another live block. */
  lemma StaysSized(mem: Memory, fl: seq<Block>, live: seq<Block>, i: int, k: int, m: Memory)
    requires FreeOk(fl) && 0 <= i < |live| && 0 <= k < |fl|
    requires forall j | 0 <= j < |live| :: live[j].units >= 1 && live[j].addr > BASE
    requires forall j, l | 0 <= j < l < |live| :: Apart(live[j], live[l])
    requires forall j, l | 0 <= j < |live| && 1 <= l < |fl| :: Apart(live[j], fl[l])
    requires forall j | 0 <= j < |live| :: live[j].addr in mem && mem[live[j].addr].size == live[j].units
    requires forall x | x in mem && x != live[i].addr && x != fl[k].addr :: x in m && m[x] == mem[x]
    ensures var rest := Without(live, i);
            forall j | 0 <= j < |rest| :: rest[j].addr in m && m[rest[j].addr].size == rest[j].units
  {
    var rest := Without(live, i);
    forall j | 0 <= j < |rest| ensures rest[j].addr in m && m[rest[j].addr].size == rest[j].units {
      var l := if j < i then j else j + 1;
      assert rest[j] == live[l];
      assert l < i ==> Apart(live[l], live[i]);
      assert l > i ==> Apart(live[i], live[l]);
      assert k >= 1 ==> Apart(live[l], fl[k]) && fl[k].units >= 1;
    }
  }

  lemma GrowSized(fl: seq<Block>, live: seq<Block>, b: Block)
    requires FreeOk(fl) && b.addr > BASE && b.units >= 1
    requires forall i | 0 <= i < |fl| :: fl[i].End() <= b.addr
    requires forall i | 0 <= i < |live| :: live[i].units >= 1 && live[i].End() <= b.addr && live[i].addr > BASE
    requires forall j, l | 0 <= j < |live| && 1 <= l < |fl| :: Apart(live[j], fl[l])
    ensures forall i | 0 <= i < |fl| :: fl[i].addr != b.addr
    ensures forall i | 0 <= i < |live| :: live[i].addr != b.addr
    ensures forall i, k | 0 <= i < |live| && 0 <= k < |fl| :: live[i].addr != fl[k].addr
  {
    forall i, k | 0 <= i < |live| && 0 <= k < |fl| ensures live[i].addr != fl[k].addr {
      assert k >= 1 ==> Apart(live[i], fl[k]);
    }
  }

  lemma GrowLinked(mem: Memory, fl: seq<Block>, b: Block, m: Memory)
    requires Linked(mem, fl) && forall i | 0 <= i < |fl| :: fl[i].addr != b.addr
    requires forall x | x in mem && x != b.addr :: x in m && m[x] == mem[x]
    ensures Linked(m, fl)
  {
    forall i | 0 <= i < |fl| ensures LinkAt(m, fl, i) {
      assert LinkAt(mem, fl, i);
    }
  }

  /** How bp compares with block k and its successor tells whether k is the place. */
  lemma Around(fl: seq<Block>, b: Block, k: int, target: int)
    requires FreeOk(fl) && Cut(fl, b, target) && b.units >= 1 && b.addr > BASE && 0 <= k < |fl|
    ensures var q := fl[Succ(|fl|, k)].addr;
            && (b.addr > fl[k].addr <==> k <= target)
            && (k + 1 < |fl| ==> fl[k].addr < q && (b.addr < q <==> target < k + 1))
            && (k + 1 == |fl| ==> fl[k].addr >= q && q < b.addr)
  {
    if k < target {
      assert fl[k].End() < fl[target].addr;
    } else if k > target {
      assert fl[target + 1].addr <= fl[k].addr;
    }
    if k + 1 < |fl| {
      assert fl[k].End() < fl[k + 1].addr;
      if k + 1 <= target {
        assert k + 1 < target ==> fl[k + 1].End() < fl[target].addr;
      } else {
        assert target + 1 < k + 1 ==> fl[target + 1].End() < fl[k + 1].addr;
      }
    } else if k > 0 {
      assert fl[0].End() < fl[k].addr;
    }
  }
}
