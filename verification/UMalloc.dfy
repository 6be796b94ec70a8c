/** The storage allocator of umalloc.c.  Addresses count in header units; the static
    header base has the lowest address and size 0. */
module UMalloc {
  import opened Common

  const BASE := 1          // &base; 0 is the null pointer
  const UNIT := 8          // sizeof(Header)
  const MORE := 4096       // morecore asks for at least this many units

  datatype Block = Block(addr: int, units: int)
  {
    function End(): int
    {
      addr + units
    }
  }

  // ---------------------------------------------------- the free list

  /** Ascending, and no block touches a later one. */
  predicate Chain(bs: seq<Block>)
  {
    && (forall i | 0 <= i < |bs| :: bs[i].units >= 0)
    && (forall i, j | 0 <= i < j < |bs| :: bs[i].End() < bs[j].addr)
  }

  /** The free list in address order from base: nothing is left to merge. */
  predicate FreeOk(fl: seq<Block>)
  {
    && |fl| >= 1 && fl[0] == Block(BASE, 0)
    && (forall i | 1 <= i < |fl| :: fl[i].units >= 1)
    && Chain(fl)
  }

  predicate Apart(a: Block, b: Block)
  {
    a.End() <= b.addr || b.End() <= a.addr
  }

  lemma {:induction false} ChainConcat(a: seq<Block>, b: seq<Block>)
    requires a != [] && b != []
    ensures Chain(a + b) <==> Chain(a) && Chain(b) && a[|a| - 1].End() < b[0].addr
  {
    var c := a + b;
    if Chain(c) {
      assert c[|a| - 1].End() < c[|a|].addr;
      forall i | 0 <= i < |b| ensures b[i] == c[|a| + i] {}
      forall i | 0 <= i < |a| ensures a[i] == c[i] {}
    }
    if Chain(a) && Chain(b) && a[|a| - 1].End() < b[0].addr {
      forall i | 0 <= i < |a| ensures a[i].End() <= a[|a| - 1].End() {}
      forall j | 0 <= j < |b| ensures b[0].addr <= b[j].addr {}
    }
  }

  function Total(bs: seq<Block>): int
  {
    if bs == [] then 0 else bs[0].units + Total(bs[1..])
  }

  lemma {:induction false} TotalConcat(a: seq<Block>, b: seq<Block>)
    ensures Total(a + b) == Total(a) + Total(b)
  {
    if a == [] {
      assert a + b == b;
    } else {
      assert (a + b)[1..] == a[1..] + b;
      TotalConcat(a[1..], b);
    }
  }

  predicate IsBelow(fl: seq<Block>, addr: int, k: nat)
  {
    k < |fl| && (k > 0 ==> fl[k].addr < addr) && forall j | k < j < |fl| :: fl[j].addr >= addr
  }

  lemma {:induction false} BelowExists(fl: seq<Block>, addr: int, n: nat)
    requires n < |fl| && forall j | n < j < |fl| :: fl[j].addr >= addr
    ensures exists k: nat :: IsBelow(fl, addr, k)
  {
    if n == 0 || fl[n].addr < addr {
      assert IsBelow(fl, addr, n);
    } else {
      BelowExists(fl, addr, n - 1);
    }
  }

  /** The last free block below addr; base is below everything. */
  ghost function Below(fl: seq<Block>, addr: int): (k: nat)
    requires |fl| >= 1
    ensures IsBelow(fl, addr, k)
  {
    BelowExists(fl, addr, |fl| - 1);
    var k: nat :| IsBelow(fl, addr, k);
    k
  }

  /** b at the front of the blocks above it, merged if it touches the first. */
  function JoinRight(b: Block, above: seq<Block>): (r: seq<Block>)
    ensures |r| >= 1
  {
    if above != [] && b.End() == above[0].addr then [Block(b.addr, b.units + above[0].units)] + above[1..]
    else [b] + above
  }

  /** The blocks below and those above, merged if they touch. */
  function JoinLeft(below: seq<Block>, above: seq<Block>): (r: seq<Block>)
    requires below != [] && above != []
  {
    var last := below[|below| - 1];
    if last.End() == above[0].addr then
      below[..|below| - 1] + [Block(last.addr, last.units + above[0].units)] + above[1..]
    else below + above
  }

  /** The list with b put in place and merged with what it touches. */
  ghost function Insert(fl: seq<Block>, b: Block): (r: seq<Block>)
    requires |fl| >= 1
  {
    var k := Below(fl, b.addr);
    JoinLeft(fl[..k + 1], JoinRight(b, fl[k + 1..]))
  }

  lemma {:induction false} JoinRightOk(b: Block, above: seq<Block>)
    requires Chain(above) && b.units >= 1 && forall i | 0 <= i < |above| :: above[i].units >= 1
    requires above != [] ==> b.End() <= above[0].addr
    ensures var r := JoinRight(b, above);
            && Chain(r) && r[0].addr == b.addr && Total(r) == Total(above) + b.units
            && forall i | 0 <= i < |r| :: r[i].units >= 1
  {
    assert ([b] + above)[1..] == above;
    if above != [] && b.End() < above[0].addr {
      ChainConcat([b], above);
    }
  }

  lemma {:induction false} JoinLeftOk(below: seq<Block>, above: seq<Block>)
    requires below != [] && above != [] && Chain(below) && Chain(above)
    requires below[|below| - 1].End() <= above[0].addr
    ensures var r := JoinLeft(below, above);
            Chain(r) && Total(r) == Total(below) + Total(above)
  {
    var n := |below| - 1;
    var last := below[n];
    if last.End() == above[0].addr {
      JoinLeftTotal(below, above);
      JoinLeftChain(below, above);
    } else {
      ChainConcat(below, above);
      TotalConcat(below, above);
    }
  }

  lemma {:induction false} JoinLeftTotal(below: seq<Block>, above: seq<Block>)
    requires below != [] && above != []
    ensures var n := |below| - 1;
            Total(below[..n] + [Block(below[n].addr, below[n].units + above[0].units)] + above[1..])
              == Total(below) + Total(above)
  {
    var n := |below| - 1;
    var m := Block(below[n].addr, below[n].units + above[0].units);
    var pre, post := below[..n], above[1..];
    TotalConcat(pre + [m], post);
    TotalOnto(pre, m);
    TotalOnto(pre, below[n]);
    assert below == pre + [below[n]];
  }

  lemma {:induction false} TotalOnto(bs: seq<Block>, b: Block)
    ensures Total(bs + [b]) == Total(bs) + b.units
  {
    TotalConcat(bs, [b]);
    assert Total([b]) == b.units;
  }

  lemma {:induction false} JoinLeftChain(below: seq<Block>, above: seq<Block>)
    requires below != [] && above != [] && Chain(below) && Chain(above)
    requires below[|below| - 1].End() == above[0].addr
    ensures var n := |below| - 1;
            Chain(below[..n] + [Block(below[n].addr, below[n].units + above[0].units)] + above[1..])
  {
    var n := |below| - 1;
    var m := Block(below[n].addr, below[n].units + above[0].units);
    var r := below[..n] + [m] + above[1..];
    forall i, j | 0 <= i < j < |r| ensures r[i].End() < r[j].addr {
      assert i < n ==> r[i] == below[i];
      assert i > n ==> r[i] == above[i - n];
      assert j > n ==> r[j] == above[j - n];
      assert j < n ==> r[j] == below[j];
      if i < n {
        assert below[i].End() < below[n].addr;
      }
      if j > n {
        assert above[0].End() < above[j - n].addr;
      }
    }
  }

  lemma {:induction false} JoinLeftHead(below: seq<Block>, above: seq<Block>)
    requires FreeOk(below) && above != [] && above[0].addr > BASE
    requires forall i | 0 <= i < |above| :: above[i].units >= 1
    ensures var r := JoinLeft(below, above);
            |r| >= 1 && r[0] == Block(BASE, 0) && forall i | 1 <= i < |r| :: r[i].units >= 1
  {
  }

  lemma {:induction false} ChainSlice(bs: seq<Block>, i: int, j: int)
    requires Chain(bs) && 0 <= i <= j <= |bs|
    ensures Chain(bs[i..j])
  {
    var r := bs[i..j];
    forall k | 0 <= k < |r| ensures r[k] == bs[i + k] {}
  }

  /** k is where the list is cut for b: both parts are in order and b lies between. */
  predicate Cut(fl: seq<Block>, b: Block, k: int)
  {
    && 0 <= k < |fl|
    && fl[k].End() <= b.addr && (k + 1 < |fl| ==> b.End() <= fl[k + 1].addr)
  }

  lemma {:induction false} BelowCuts(fl: seq<Block>, b: Block)
    requires FreeOk(fl) && b.units >= 1 && b.addr > BASE
    requires forall i | 1 <= i < |fl| :: Apart(b, fl[i])
    ensures Cut(fl, b, Below(fl, b.addr))
  {
    var k := Below(fl, b.addr);
    assert k + 1 < |fl| ==> Apart(b, fl[k + 1]);
    assert k > 0 ==> Apart(b, fl[k]);
  }

  lemma {:induction false} CutParts(fl: seq<Block>, b: Block, k: int)
    requires FreeOk(fl) && Cut(fl, b, k)
    ensures var below, above := fl[..k + 1], fl[k + 1..];
            && FreeOk(below) && Chain(above) && (forall i | 0 <= i < |above| :: above[i].units >= 1)
            && Total(fl) == Total(below) + Total(above)
  {
    var below, above := fl[..k + 1], fl[k + 1..];
    assert fl == below + above;
    TotalConcat(below, above);
    ChainSlice(fl, 0, k + 1);
    ChainSlice(fl, k + 1, |fl|);
    assert fl[0..k + 1] == below && fl[k + 1..|fl|] == above;
    CutUnits(fl, k);
  }

  lemma {:induction false} CutUnits(fl: seq<Block>, k: int)
    requires FreeOk(fl) && 0 <= k < |fl|
    ensures var below, above := fl[..k + 1], fl[k + 1..];
            && below[0] == fl[0] && (forall i | 1 <= i < |below| :: below[i].units >= 1)
            && (forall i | 0 <= i < |above| :: above[i].units >= 1)
  {
    var above := fl[k + 1..];
    forall i | 0 <= i < |above| ensures above[i].units >= 1 {
      assert above[i] == fl[k + 1 + i];
    }
  }

  /** A block apart from the free list can be put back: the list stays in order with
      nothing left to merge, and not a unit is gained or lost. */
  lemma {:induction false} InsertOk(fl: seq<Block>, b: Block)
    requires FreeOk(fl) && b.units >= 1 && b.addr > BASE
    requires forall i | 1 <= i < |fl| :: Apart(b, fl[i])
    ensures FreeOk(Insert(fl, b)) && Total(Insert(fl, b)) == Total(fl) + b.units
  {
    var k := Below(fl, b.addr);
    BelowCuts(fl, b);
    CutParts(fl, b, k);
    var below, above := fl[..k + 1], fl[k + 1..];
    JoinRightOk(b, above);
    JoinOk(below, JoinRight(b, above));
  }

  lemma {:induction false} JoinOk(below: seq<Block>, up: seq<Block>)
    requires FreeOk(below) && up != [] && Chain(up) && up[0].addr > BASE && below[|below| - 1].End() <= up[0].addr
    requires forall i | 0 <= i < |up| :: up[i].units >= 1
    ensures FreeOk(JoinLeft(below, up)) && Total(JoinLeft(below, up)) == Total(below) + Total(up)
  {
    JoinLeftOk(below, up);
    JoinLeftHead(below, up);
  }

  ghost predicate ApartFrom(c: Block, bs: seq<Block>)
  {
    forall i | 1 <= i < |bs| :: Apart(c, bs[i])
  }

  /** Whatever is apart from b and from the list is apart from the new list. */
  lemma {:induction false} InsertApart(fl: seq<Block>, b: Block, c: Block)
    requires FreeOk(fl) && b.units >= 1 && b.addr > BASE && c.units >= 1
    requires forall i | 1 <= i < |fl| :: Apart(b, fl[i])
    requires Apart(c, b) && c.addr > BASE && forall i | 1 <= i < |fl| :: Apart(c, fl[i])
    ensures ApartFrom(c, Insert(fl, b))
  {
    BelowCuts(fl, b);
    CutApart(fl, b, c, Below(fl, b.addr));
  }

  lemma {:induction false} CutApart(fl: seq<Block>, b: Block, c: Block, k: int)
    requires FreeOk(fl) && Cut(fl, b, k) && b.units >= 1 && b.addr > BASE && c.units >= 1
    requires Apart(c, b) && c.addr > BASE && forall i | 1 <= i < |fl| :: Apart(c, fl[i])
    ensures ApartFrom(c, JoinLeft(fl[..k + 1], JoinRight(b, fl[k + 1..])))
  {
    CutParts(fl, b, k);
    var below, above := fl[..k + 1], fl[k + 1..];
    assert forall i | 1 <= i < |below| :: below[i] == fl[i];
    assert forall i | 0 <= i < |above| :: above[i] == fl[k + 1 + i];
    JoinApart(below, b, above, c);
  }

  lemma {:induction false} JoinApart(below: seq<Block>, b: Block, above: seq<Block>, c: Block)
    requires FreeOk(below) && Chain(above) && b.units >= 1 && c.units >= 1 && Apart(c, b) && c.addr > BASE
             && b.addr > BASE
    requires below[|below| - 1].End() <= b.addr && (above != [] ==> b.End() <= above[0].addr)
    requires forall i | 0 <= i < |above| :: above[i].units >= 1 && Apart(c, above[i])
    requires forall i | 1 <= i < |below| :: Apart(c, below[i])
    ensures ApartFrom(c, JoinLeft(below, JoinRight(b, above)))
  {
    JoinRightOk(b, above);
    JoinRightApart(b, above, c);
    JoinLeftApart(below, JoinRight(b, above), c);
  }

  lemma {:induction false} JoinRightApart(b: Block, above: seq<Block>, c: Block)
    requires b.units >= 1 && c.units >= 1 && Apart(c, b)
    requires forall i | 0 <= i < |above| :: above[i].units >= 1 && Apart(c, above[i])
    ensures forall i | 0 <= i < |JoinRight(b, above)| :: Apart(c, JoinRight(b, above)[i])
  {
    assert above != [] ==> Apart(c, above[0]);
  }

  lemma {:induction false} JoinLeftApart(below: seq<Block>, up: seq<Block>, c: Block)
    requires FreeOk(below) && up != [] && up[0].addr > BASE && c.units >= 1
    requires forall i | 0 <= i < |up| :: up[i].units >= 1 && Apart(c, up[i])
    requires forall i | 1 <= i < |below| :: Apart(c, below[i])
    ensures forall i | 1 <= i < |JoinLeft(below, up)| :: Apart(c, JoinLeft(below, up)[i])
  {
    var n := |below| - 1;
    var r := JoinLeft(below, up);
    forall i | 1 <= i < |r| ensures Apart(c, r[i]) {
      if i < n {
        assert r[i] == below[i];
      } else if below[n].End() == up[0].addr {
        assert i > n ==> r[i] == up[i - n];
      } else {
        assert i == n ==> r[i] == below[n];
        assert i > n ==> r[i] == up[i - n - 1];
      }
    }
  }

  // ------------------------------------------------------ the whole heap

  /** Free and live blocks: the free list in order, no two blocks overlapping, and all
      of them together exactly what sbrk has given. */
  predicate HeapOk(fl: seq<Block>, live: seq<Block>, total: int)
  {
    && FreeOk(fl)
    && (forall i | 0 <= i < |live| :: live[i].units >= 1 && live[i].addr > BASE)
    && (forall i, j | 0 <= i < j < |live| :: Apart(live[i], live[j]))
    && (forall i, j | 0 <= i < |live| && 1 <= j < |fl| :: Apart(live[i], fl[j]))
    && Total(fl) + Total(live) == total
  }

  /** malloc takes the tail end of a free block, or all of it. */
  function Carved(fl: seq<Block>, k: int, nu: int): seq<Block>
    requires 0 <= k < |fl|
  {
    if fl[k].units == nu then fl[..k] + fl[k + 1..]
    else fl[k := Block(fl[k].addr, fl[k].units - nu)]
  }

  function Given(fl: seq<Block>, k: int, nu: int): Block
    requires 0 <= k < |fl|
  {
    Block(fl[k].End() - nu, nu)
  }

  lemma {:induction false} CarvedOk(fl: seq<Block>, k: int, nu: int)
    requires FreeOk(fl) && 1 <= k < |fl| && 1 <= nu <= fl[k].units
    ensures FreeOk(Carved(fl, k, nu)) && Total(Carved(fl, k, nu)) == Total(fl) - nu
    ensures Given(fl, k, nu).addr > BASE
  {
    assert fl[0].End() < fl[k].addr;
    CarvedTotal(fl, k, nu);
    if fl[k].units == nu {
      ChainWithout(fl, k);
    } else {
      ChainShrink(fl, k, fl[k].units - nu);
    }
  }

  lemma {:induction false} ChainWithout(fl: seq<Block>, k: int)
    requires FreeOk(fl) && 1 <= k < |fl|
    ensures FreeOk(Without(fl, k))
  {
    var r := Without(fl, k);
    forall i | 0 <= i < |r| ensures r[i] == fl[if i < k then i else i + 1] {}
    forall i, j | 0 <= i < j < |r| ensures r[i].End() < r[j].addr {
      var i' := if i < k then i else i + 1;
      var j' := if j < k then j else j + 1;
      assert fl[i'].End() < fl[j'].addr;
    }
  }

  lemma {:induction false} ChainShrink(fl: seq<Block>, k: int, u: int)
    requires FreeOk(fl) && 1 <= k < |fl| && 1 <= u <= fl[k].units
    ensures FreeOk(fl[k := Block(fl[k].addr, u)])
  {
  }

  lemma {:induction false} CarvedTotal(fl: seq<Block>, k: int, nu: int)
    requires 0 <= k < |fl|
    ensures Total(Carved(fl, k, nu)) == Total(fl) - nu
  {
    TotalWithout(fl, k);
    if fl[k].units != nu {
      var m := Block(fl[k].addr, fl[k].units - nu);
      var r := Carved(fl, k, nu);
      TotalWithout(r, k);
      assert Without(r, k) == Without(fl, k);
    }
  }

  /** Every block of the carved list lies inside a block of the old one; the piece
      given away lies in block k and is apart from what is left. */
  lemma {:induction false} CarvedWithin(fl: seq<Block>, k: int, nu: int, i: int)
    requires FreeOk(fl) && 1 <= k < |fl| && 1 <= nu <= fl[k].units
    requires 1 <= i < |Carved(fl, k, nu)|
    ensures var x := Carved(fl, k, nu)[i];
            && Apart(Given(fl, k, nu), x)
            && exists j :: 1 <= j < |fl| && fl[j].addr == x.addr && x.End() <= fl[j].End()
  {
    var x := Carved(fl, k, nu)[i];
    var j := if fl[k].units == nu && i >= k then i + 1 else i;
    assert fl[j].addr == x.addr && x.End() <= fl[j].End();
    if j < k {
      assert fl[j].End() < fl[k].addr;
    } else if j > k {
      assert fl[k].End() < fl[j].addr;
    }
  }

  lemma {:induction false} MallocKeeps(fl: seq<Block>, live: seq<Block>, total: int, k: int, nu: int)
    requires HeapOk(fl, live, total) && 1 <= k < |fl| && 1 <= nu <= fl[k].units
    ensures HeapOk(Carved(fl, k, nu), live + [Given(fl, k, nu)], total)
  {
    var r, b := Carved(fl, k, nu), Given(fl, k, nu);
    CarvedOk(fl, k, nu);
    TotalOnto(live, b);
    forall i, j | 0 <= i <= |live| && 1 <= j < |r| ensures Apart((live + [b])[i], r[j]) {
      CarvedWithin(fl, k, nu, j);
      if i < |live| {
        var j' :| 1 <= j' < |fl| && fl[j'].addr == r[j].addr && r[j].End() <= fl[j'].End();
        assert Apart(live[i], fl[j']);
      }
    }
    forall i | 0 <= i < |live| ensures Apart(live[i], b) {
      assert Apart(live[i], fl[k]);
    }
  }

  lemma {:induction false} TotalWithout(bs: seq<Block>, i: int)
    requires 0 <= i < |bs|
    ensures Total(Without(bs, i)) == Total(bs) - bs[i].units
  {
    assert bs == bs[..i] + ([bs[i]] + bs[i + 1..]);
    TotalConcat(bs[..i], [bs[i]] + bs[i + 1..]);
    assert ([bs[i]] + bs[i + 1..])[1..] == bs[i + 1..];
    TotalConcat(bs[..i], bs[i + 1..]);
  }

  /** free of a live block, whatever it is: every clause of HeapOk is kept. */
  lemma FreeKeeps(fl: seq<Block>, live: seq<Block>, total: int, i: int)
    requires HeapOk(fl, live, total) && 0 <= i < |live|
    ensures HeapOk(Insert(fl, live[i]), Without(live, i), total)
  {
    var b := live[i];
    var r, rest := Insert(fl, b), Without(live, i);
    InsertOk(fl, b);
    TotalWithout(live, i);
    RestApart(live, i);
    forall k, j | 0 <= k < |rest| && 1 <= j < |r| ensures Apart(rest[k], r[j]) {
      FreedApart(fl, live, total, i, k);
    }
  }

  lemma RestApart(live: seq<Block>, i: int)
    requires 0 <= i < |live|
    requires forall j | 0 <= j < |live| :: live[j].units >= 1 && live[j].addr > BASE
    requires forall j, l | 0 <= j < l < |live| :: Apart(live[j], live[l])
    ensures var rest := Without(live, i);
            && (forall j | 0 <= j < |rest| :: rest[j].units >= 1 && rest[j].addr > BASE)
            && (forall j, l | 0 <= j < l < |rest| :: Apart(rest[j], rest[l]))
  {
    var rest := Without(live, i);
    forall j | 0 <= j < |rest| ensures rest[j] == live[if j < i then j else j + 1] {
      WithoutAt(live, i, j);
    }
  }

  /** A live block stays apart from the list that another one enters. */
  lemma FreedApart(fl: seq<Block>, live: seq<Block>, total: int, i: int, k: int)
    requires HeapOk(fl, live, total) && 0 <= i < |live| && 0 <= k < |live| - 1
    ensures var r := Insert(fl, live[i]);
            k < |Without(live, i)| && forall j | 1 <= j < |r| :: Apart(Without(live, i)[k], r[j])
  {
    WithoutAt(live, i, k);
    InsertApart(fl, live[i], Without(live, i)[k]);
  }

  /** morecore: new memory above everything joins the free list. */
  lemma {:induction false} GrowKeeps(fl: seq<Block>, live: seq<Block>, total: int, b: Block)
    requires HeapOk(fl, live, total) && b.units >= 1 && b.addr > BASE
    requires forall i | 0 <= i < |fl| :: fl[i].End() <= b.addr
    requires forall i | 0 <= i < |live| :: live[i].End() <= b.addr
    ensures HeapOk(Insert(fl, b), live, total + b.units)
  {
    InsertOk(fl, b);
    var r := Insert(fl, b);
    forall k, j | 0 <= k < |live| && 1 <= j < |r| ensures Apart(live[k], r[j]) {
      InsertApart(fl, b, live[k]);
    }
  }

  datatype Heap = Heap(fl: seq<Block>, live: seq<Block>, total: int)

  /** One step of the heap: malloc carves, free puts back, morecore adds. */
  datatype Event = Carve(k: int, nu: int) | PutBack(i: int) | Grow(b: Block)

  predicate Enabled(h: Heap, e: Event)
  {
    match e
    case Carve(k, nu) => 1 <= k < |h.fl| && 1 <= nu <= h.fl[k].units
    case PutBack(i) => |h.fl| >= 1 && 0 <= i < |h.live|
    case Grow(b) => && |h.fl| >= 1 && b.units >= 1 && b.addr > BASE
                    && (forall i | 0 <= i < |h.fl| :: h.fl[i].End() <= b.addr)
                    && (forall i | 0 <= i < |h.live| :: h.live[i].End() <= b.addr)
  }

  ghost function Next(h: Heap, e: Event): Heap
    requires Enabled(h, e)
  {
    match e
    case Carve(k, nu) => Heap(Carved(h.fl, k, nu), h.live + [Given(h.fl, k, nu)], h.total)
    case PutBack(i) => Heap(Insert(h.fl, h.live[i]), Without(h.live, i), h.total)
    case Grow(b) => Heap(Insert(h.fl, b), h.live, h.total + b.units)
  }

  ghost predicate IsRun(hs: seq<Heap>, es: seq<Event>)
  {
    && |hs| == |es| + 1
    && forall i | 0 <= i < |es| :: Enabled(hs[i], es[i]) && hs[i + 1] == Next(hs[i], es[i])
  }

  /** Over every sequence of malloc, free and morecore from the list that is base
      alone: order, separation and the total are kept. */
  lemma {:induction false} HeapSound(hs: seq<Heap>, es: seq<Event>, k: nat)
    requires IsRun(hs, es) && hs[0] == Heap([Block(BASE, 0)], [], 0) && k <= |es|
    ensures HeapOk(hs[k].fl, hs[k].live, hs[k].total)
  {
    if k == 0 {
      assert Total([Block(BASE, 0)]) == 0;
    } else {
      HeapSound(hs, es, k - 1);
      var h := hs[k - 1];
      match es[k - 1]
      case Carve(j, nu) => MallocKeeps(h.fl, h.live, h.total, j, nu);
      case PutBack(i) => FreeKeeps(h.fl, h.live, h.total, i);
      case Grow(b) => GrowKeeps(h.fl, h.live, h.total, b);
    }
  }

  // ------------------------------------------------ links through memory

  datatype Header = Header(ptr: int, size: int)
  type Memory = map<int, Header>

  /** The header of free block i holds its size and the address of the next one, the
      last block pointing back to base. */
  predicate LinkAt(mem: Memory, fl: seq<Block>, i: int)
  {
    0 <= i < |fl| && fl[i].addr in mem && mem[fl[i].addr] == Header(fl[Succ(|fl|, i)].addr, fl[i].units)
  }

  predicate Linked(mem: Memory, fl: seq<Block>)
  {
    forall i | 0 <= i < |fl| :: LinkAt(mem, fl, i)
  }

  /** The header updates of free, once p is found. */
  function FreeMem(mem: Memory, p: int, bp: int): (m: Memory)
    requires p in mem && bp in mem && mem[p].ptr in mem && p != bp
  {
    var q := mem[p].ptr;
    var m1 := if bp + mem[bp].size == q then mem[bp := Header(mem[q].ptr, mem[bp].size + mem[q].size)]
              else mem[bp := Header(q, mem[bp].size)];
    if p + m1[p].size == bp then m1[p := Header(m1[bp].ptr, m1[p].size + m1[bp].size)]
    else m1[p := Header(bp, m1[p].size)]
  }

  /** The address of block j is neither b's nor, unless it is k itself, block k's. */
  predicate Own(fl: seq<Block>, b: Block, k: int, j: int)
  {
    0 <= j < |fl| && 0 <= k < |fl| && fl[j].addr != b.addr && (j != k ==> fl[j].addr != fl[k].addr)
  }

  predicate OwnAddresses(fl: seq<Block>, b: Block, k: int)
  {
    0 <= k < |fl| && forall j | 0 <= j < |fl| :: Own(fl, b, k, j)
  }

  lemma {:induction false} CutOwns(fl: seq<Block>, b: Block, k: int)
    requires FreeOk(fl) && Cut(fl, b, k) && b.units >= 1 && b.addr > BASE
    ensures OwnAddresses(fl, b, k)
  {
    forall j | 0 <= j < |fl| ensures Own(fl, b, k, j) {
      if j < k {
        assert fl[j].End() < fl[k].addr;
      } else if j > k {
        assert fl[k].End() < fl[j].addr;
        assert j > k + 1 ==> fl[k + 1].End() < fl[j].addr;
      }
    }
  }

  /** Both neighbours stay: the new block is linked in between. */
  lemma {:induction false} LinksBetween(mem: Memory, fl: seq<Block>, b: Block, k: int, m: Memory)
    requires Linked(mem, fl) && OwnAddresses(fl, b, k)
    requires m == mem[b.addr := Header(fl[Succ(|fl|, k)].addr, b.units)][fl[k].addr := Header(b.addr, fl[k].units)]
    ensures Linked(m, fl[..k + 1] + [b] + fl[k + 1..])
  {
    var r := fl[..k + 1] + [b] + fl[k + 1..];
    assert |r| == |fl| + 1 && r[k] == fl[k] && r[k + 1] == b && r[0] == fl[0];
    assert Own(fl, b, k, k);
    forall i | 0 <= i < |r| ensures LinkAt(m, r, i) {
      if i < k {
        assert r[i] == fl[i] && r[i + 1] == fl[i + 1];
        assert LinkAt(mem, fl, i) && Own(fl, b, k, i);
      } else if i == k + 1 {
        assert k + 2 < |r| ==> r[k + 2] == fl[k + 1];
      } else if i > k + 1 {
        assert r[i] == fl[i - 1];
        assert i + 1 < |r| ==> r[i + 1] == fl[i];
        assert LinkAt(mem, fl, i - 1) && Own(fl, b, k, i - 1);
      }
    }
  }

  /** b swallows the block above it. */
  lemma {:induction false} LinksRight(mem: Memory, fl: seq<Block>, b: Block, k: int, m: Memory)
    requires Linked(mem, fl) && OwnAddresses(fl, b, k) && k + 1 < |fl|
    requires var h := Header(fl[Succ(|fl|, k + 1)].addr, b.units + fl[k + 1].units);
             m == mem[b.addr := h][fl[k].addr := Header(b.addr, fl[k].units)]
    ensures Linked(m, fl[k + 1 := Block(b.addr, b.units + fl[k + 1].units)])
  {
    var r := fl[k + 1 := Block(b.addr, b.units + fl[k + 1].units)];
    assert Own(fl, b, k, k);
    forall i | 0 <= i < |r| ensures LinkAt(m, r, i) {
      assert LinkAt(mem, fl, i) && Own(fl, b, k, i);
    }
  }

  /** The block below swallows b. */
  lemma {:induction false} LinksLeft(mem: Memory, fl: seq<Block>, b: Block, k: int, m: Memory, h: Header)
    requires Linked(mem, fl) && OwnAddresses(fl, b, k)
    requires m == mem[b.addr := h][fl[k].addr := Header(fl[Succ(|fl|, k)].addr, fl[k].units + b.units)]
    ensures Linked(m, fl[k := Block(fl[k].addr, fl[k].units + b.units)])
  {
    var r := fl[k := Block(fl[k].addr, fl[k].units + b.units)];
    forall i | 0 <= i < |r| ensures LinkAt(m, r, i) {
      assert LinkAt(mem, fl, i) && Own(fl, b, k, i);
    }
  }

  /** The block below swallows b and the block above. */
  lemma {:induction false} LinksBoth(mem: Memory, fl: seq<Block>, b: Block, k: int, m: Memory, h: Header, u: int)
    requires Linked(mem, fl) && OwnAddresses(fl, b, k) && k + 1 < |fl|
    requires m == mem[b.addr := h][fl[k].addr := Header(fl[Succ(|fl|, k + 1)].addr, u)]
    ensures Linked(m, fl[..k] + [Block(fl[k].addr, u)] + fl[k + 2..])
  {
    var r := fl[..k] + [Block(fl[k].addr, u)] + fl[k + 2..];
    assert |r| == |fl| - 1 && r[k] == Block(fl[k].addr, u) && r[0].addr == fl[0].addr;
    forall i | 0 <= i < |r| ensures LinkAt(m, r, i) {
      if i < k {
        assert r[i] == fl[i] && r[i + 1].addr == fl[i + 1].addr;
        assert LinkAt(mem, fl, i) && Own(fl, b, k, i);
      } else if i == k {
        assert k + 1 < |r| ==> r[k + 1] == fl[k + 2];
      } else {
        assert r[i] == fl[i + 1];
        assert i + 1 < |r| ==> r[i + 1] == fl[i + 2];
        assert LinkAt(mem, fl, i + 1) && Own(fl, b, k, i + 1);
      }
    }
  }

  predicate TouchesRight(fl: seq<Block>, b: Block, k: int)
    requires 0 <= k < |fl|
  {
    k + 1 < |fl| && b.End() == fl[k + 1].addr
  }

  predicate TouchesLeft(fl: seq<Block>, b: Block, k: int)
    requires 0 <= k < |fl|
  {
    fl[k].End() == b.addr
  }

  /** The list with b put in between blocks k and k + 1. */
  function Joined(fl: seq<Block>, b: Block, k: int): seq<Block>
    requires 0 <= k < |fl|
  {
    JoinLeft(fl[..k + 1], JoinRight(b, fl[k + 1..]))
  }

  lemma {:induction false} JoinedRight(fl: seq<Block>, b: Block, k: int)
    requires 0 <= k < |fl| && TouchesRight(fl, b, k)
    ensures TouchesLeft(fl, b, k) ==>
              Joined(fl, b, k) == fl[..k] + [Block(fl[k].addr, fl[k].units + (b.units + fl[k + 1].units))] + fl[k + 2..]
    ensures !TouchesLeft(fl, b, k) ==> Joined(fl, b, k) == fl[k + 1 := Block(b.addr, b.units + fl[k + 1].units)]
  {
    var below, above := fl[..k + 1], fl[k + 1..];
    var c := Block(b.addr, b.units + fl[k + 1].units);
    assert above[1..] == fl[k + 2..];
    var up := [c] + fl[k + 2..];
    assert JoinRight(b, above) == up;
    assert up[1..] == fl[k + 2..] && below[..k] == fl[..k] && below[k] == fl[k];
    if !TouchesLeft(fl, b, k) {
      assert below + up == fl[k + 1 := c];
    }
  }

  lemma {:induction false} JoinedAlone(fl: seq<Block>, b: Block, k: int)
    requires 0 <= k < |fl| && !TouchesRight(fl, b, k)
    ensures TouchesLeft(fl, b, k) ==> Joined(fl, b, k) == fl[k := Block(fl[k].addr, fl[k].units + b.units)]
    ensures !TouchesLeft(fl, b, k) ==> Joined(fl, b, k) == fl[..k + 1] + [b] + fl[k + 1..]
  {
    var below, above := fl[..k + 1], fl[k + 1..];
    var up := [b] + above;
    assert JoinRight(b, above) == up;
    assert up[1..] == above && below[..k] == fl[..k] && below[k] == fl[k];
    if TouchesLeft(fl, b, k) {
      var c := Block(fl[k].addr, fl[k].units + b.units);
      assert fl[..k] + [c] + above == fl[k := c];
    } else {
      assert below + up == fl[..k + 1] + [b] + fl[k + 1..];
    }
  }

  /** The four outcomes of FreeMem. */
  lemma {:induction false} FreeMemForms(mem: Memory, fl: seq<Block>, b: Block, k: int)
    requires Linked(mem, fl) && OwnAddresses(fl, b, k) && fl[0].addr == BASE && b.addr > BASE && b.units >= 1
    requires b.addr in mem && mem[b.addr].size == b.units
    ensures fl[k].addr in mem && fl[k].addr != b.addr && mem[fl[k].addr].ptr in mem
    ensures var n, p := |fl|, fl[k].addr;
            FreeMem(mem, p, b.addr) ==
              if TouchesRight(fl, b, k) then
                var h := Header(fl[Succ(n, k + 1)].addr, b.units + fl[k + 1].units);
                if TouchesLeft(fl, b, k) then mem[b.addr := h][p := Header(h.ptr, fl[k].units + h.size)]
                else mem[b.addr := h][p := Header(b.addr, fl[k].units)]
              else
                var h := Header(fl[Succ(n, k)].addr, b.units);
                if TouchesLeft(fl, b, k) then mem[b.addr := h][p := Header(h.ptr, fl[k].units + b.units)]
                else mem[b.addr := h][p := Header(b.addr, fl[k].units)]
  {
    assert LinkAt(mem, fl, k) && LinkAt(mem, fl, Succ(|fl|, k)) && Own(fl, b, k, k);
  }

  lemma RightLinks(mem: Memory, fl: seq<Block>, b: Block, k: int, m: Memory)
    requires Linked(mem, fl) && OwnAddresses(fl, b, k) && TouchesRight(fl, b, k)
    requires var p, h := fl[k].addr, Header(fl[Succ(|fl|, k + 1)].addr, b.units + fl[k + 1].units);
             m == if TouchesLeft(fl, b, k) then mem[b.addr := h][p := Header(h.ptr, fl[k].units + h.size)]
                  else mem[b.addr := h][p := Header(b.addr, fl[k].units)]
    ensures Linked(m, Joined(fl, b, k)) && |Joined(fl, b, k)| > k && Joined(fl, b, k)[k].addr == fl[k].addr
  {
    JoinedRight(fl, b, k);
    var h := Header(fl[Succ(|fl|, k + 1)].addr, b.units + fl[k + 1].units);
    if TouchesLeft(fl, b, k) {
      LinksBoth(mem, fl, b, k, m, h, fl[k].units + h.size);
    } else {
      LinksRight(mem, fl, b, k, m);
    }
  }

  lemma AloneLinks(mem: Memory, fl: seq<Block>, b: Block, k: int, m: Memory)
    requires Linked(mem, fl) && OwnAddresses(fl, b, k) && !TouchesRight(fl, b, k)
    requires var p, h := fl[k].addr, Header(fl[Succ(|fl|, k)].addr, b.units);
             m == if TouchesLeft(fl, b, k) then mem[b.addr := h][p := Header(h.ptr, fl[k].units + b.units)]
                  else mem[b.addr := h][p := Header(b.addr, fl[k].units)]
    ensures Linked(m, Joined(fl, b, k)) && |Joined(fl, b, k)| > k && Joined(fl, b, k)[k].addr == fl[k].addr
  {
    JoinedAlone(fl, b, k);
    if TouchesLeft(fl, b, k) {
      LinksLeft(mem, fl, b, k, m, Header(fl[Succ(|fl|, k)].addr, b.units));
    } else {
      LinksBetween(mem, fl, b, k, m);
    }
  }

  lemma JoinedLinks(mem: Memory, fl: seq<Block>, b: Block, k: int)
    requires Linked(mem, fl) && OwnAddresses(fl, b, k) && fl[0].addr == BASE && b.addr > BASE && b.units >= 1
    requires b.addr in mem && mem[b.addr].size == b.units
    ensures fl[k].addr in mem && fl[k].addr != b.addr && mem[fl[k].addr].ptr in mem
    ensures Linked(FreeMem(mem, fl[k].addr, b.addr), Joined(fl, b, k))
    ensures |Joined(fl, b, k)| > k && Joined(fl, b, k)[k].addr == fl[k].addr
  {
    FreeMemForms(mem, fl, b, k);
    var m := FreeMem(mem, fl[k].addr, b.addr);
    if TouchesRight(fl, b, k) {
      RightLinks(mem, fl, b, k, m);
    } else {
      AloneLinks(mem, fl, b, k, m);
    }
  }

  /** The pointer surgery of free is Insert. */
  lemma {:induction false} FreeLinks(mem: Memory, fl: seq<Block>, b: Block)
    requires FreeOk(fl) && Linked(mem, fl) && b.units >= 1 && b.addr > BASE
    requires forall i | 1 <= i < |fl| :: Apart(b, fl[i])
    requires b.addr in mem && mem[b.addr].size == b.units
    ensures var k := Below(fl, b.addr);
            && fl[k].addr in mem && fl[k].addr != b.addr && mem[fl[k].addr].ptr in mem
            && Linked(FreeMem(mem, fl[k].addr, b.addr), Insert(fl, b))
            && |Insert(fl, b)| > k && Insert(fl, b)[k].addr == fl[k].addr
  {
    var k := Below(fl, b.addr);
    BelowCuts(fl, b);
    CutOwns(fl, b, k);
    JoinedLinks(mem, fl, b, k);
  }

  /** The updates of malloc: unlinking a whole block ... */
  lemma WholeLinks(mem: Memory, fl: seq<Block>, k: int, m: Memory)
    requires FreeOk(fl) && Linked(mem, fl) && 1 <= k < |fl|
    requires m == mem[fl[k - 1].addr := Header(fl[Succ(|fl|, k)].addr, fl[k - 1].units)]
    ensures Linked(m, Without(fl, k))
  {
    var r := Without(fl, k);
    assert r[k - 1] == fl[k - 1];
    forall i | 0 <= i < |r| ensures LinkAt(m, r, i) {
      WholeLinkAt(mem, fl, k, m, i);
    }
  }

  lemma WholeLinkAt(mem: Memory, fl: seq<Block>, k: int, m: Memory, i: int)
    requires FreeOk(fl) && Linked(mem, fl) && 1 <= k < |fl| && 0 <= i < |fl| - 1
    requires m == mem[fl[k - 1].addr := Header(fl[Succ(|fl|, k)].addr, fl[k - 1].units)]
    ensures LinkAt(m, Without(fl, k), i)
  {
    var j := if i < k then i else i + 1;
    assert LinkAt(mem, fl, j);
    if j != k - 1 {
      OtherHeader(fl, j, k - 1);
    }
    WithoutAt(fl, k, i);
    WithoutAt(fl, k, Succ(|fl| - 1, i));
  }

  lemma WithoutAt(fl: seq<Block>, k: int, i: int)
    requires 0 <= k < |fl| && 0 <= i < |fl| - 1
    ensures |Without(fl, k)| == |fl| - 1 && Without(fl, k)[i] == fl[if i < k then i else i + 1]
  {
  }

  lemma OtherHeader(fl: seq<Block>, i: int, j: int)
    requires FreeOk(fl) && 0 <= i < |fl| && 0 <= j < |fl| && i != j
    ensures fl[i].addr != fl[j].addr
  {
    assert i < j ==> fl[i].End() < fl[j].addr;
    assert j < i ==> fl[j].End() < fl[i].addr;
  }

  /** ... or cutting the tail off one, where the new header is written. */
  lemma {:induction false} PartLinks(mem: Memory, fl: seq<Block>, k: int, nu: int, m: Memory, h: Header)
    requires FreeOk(fl) && Linked(mem, fl) && 1 <= k < |fl| && 1 <= nu < fl[k].units
    requires m == mem[fl[k].addr := Header(fl[Succ(|fl|, k)].addr, fl[k].units - nu)][fl[k].End() - nu := h]
    ensures Linked(m, fl[k := Block(fl[k].addr, fl[k].units - nu)])
  {
    var r := fl[k := Block(fl[k].addr, fl[k].units - nu)];
    forall i | 0 <= i < |r| ensures LinkAt(m, r, i) {
      assert LinkAt(mem, fl, i);
      assert i < k ==> fl[i].End() < fl[k].addr;
      assert i > k ==> fl[k].End() < fl[i].addr;
    }
  }
}
