/** Where every unit of the heap is, over whole runs of umalloc.c. */
module UMallocRuns {
  import opened Common
  import opened UMalloc

  predicate Within(b: Block, a: int)
  {
    b.addr <= a < b.End()
  }

  /** Some block holds unit a. */
  ghost predicate Covers(bs: seq<Block>, a: int)
  {
    exists i :: 0 <= i < |bs| && Within(bs[i], a)
  }

  lemma CoversCat(x: seq<Block>, y: seq<Block>, a: int)
    ensures Covers(x + y, a) <==> Covers(x, a) || Covers(y, a)
  {
    var z := x + y;
    if i :| 0 <= i < |x| && Within(x[i], a) {
      assert Within(z[i], a);
    }
    if i :| 0 <= i < |y| && Within(y[i], a) {
      assert Within(z[|x| + i], a);
    }
    if i :| 0 <= i < |z| && Within(z[i], a) {
      assert if i < |x| then Within(x[i], a) else Within(y[i - |x|], a);
    }
  }

  lemma CoversOne(b: Block, a: int)
    ensures Covers([b], a) <==> Within(b, a)
  {
    if Within(b, a) {
      assert Within([b][0], a);
    }
  }

  lemma CoversFirst(bs: seq<Block>, a: int)
    requires bs != []
    ensures Covers(bs, a) <==> Within(bs[0], a) || Covers(bs[1..], a)
  {
    assert bs == [bs[0]] + bs[1..];
    CoversCat([bs[0]], bs[1..], a);
    CoversOne(bs[0], a);
  }

  lemma CoversRight(b: Block, above: seq<Block>, a: int)
    requires b.units >= 0 && forall i | 0 <= i < |above| :: above[i].units >= 0
    ensures Covers(JoinRight(b, above), a) <==> Within(b, a) || Covers(above, a)
  {
    var r := JoinRight(b, above);
    CoversFirst(r, a);
    if above != [] && b.End() == above[0].addr {
      CoversFirst(above, a);
      assert r[1..] == above[1..];
    } else {
      assert r[1..] == above;
    }
  }

  lemma CoversLeft(below: seq<Block>, above: seq<Block>, a: int)
    requires below != [] && above != []
    requires below[|below| - 1].units >= 0 && above[0].units >= 0
    ensures Covers(JoinLeft(below, above), a) <==> Covers(below, a) || Covers(above, a)
  {
    var last, front := below[|below| - 1], below[..|below| - 1];
    if last.End() == above[0].addr {
      var one := Block(last.addr, last.units + above[0].units);
      CoversCat(front + [one], above[1..], a);
      CoversCat(front, [one], a);
      CoversOne(one, a);
      assert below == front + [last];
      CoversCat(front, [last], a);
      CoversOne(last, a);
      CoversFirst(above, a);
    } else {
      CoversCat(below, above, a);
    }
  }

  /** free puts back the units of the block and no others. */
  lemma InsertCovers(fl: seq<Block>, b: Block, a: int)
    requires FreeOk(fl) && b.units >= 1
    ensures Covers(Insert(fl, b), a) <==> Covers(fl, a) || Within(b, a)
  {
    var k := Below(fl, b.addr);
    var below, above := fl[..k + 1], fl[k + 1..];
    assert below[|below| - 1] == fl[k];
    CutUnits(fl, k);
    CoversRight(b, above, a);
    CoversLeft(below, JoinRight(b, above), a);
    assert fl == below + above;
    CoversCat(below, above, a);
  }

  /** malloc takes the units it gives out of the list and no others. */
  lemma CarvedCovers(fl: seq<Block>, k: int, nu: int, a: int)
    requires FreeOk(fl) && 1 <= k < |fl| && 1 <= nu <= fl[k].units
    ensures Covers(fl, a) <==> Covers(Carved(fl, k, nu), a) || Within(Given(fl, k, nu), a)
  {
    var front, back := fl[..k], fl[k + 1..];
    var rest := Block(fl[k].addr, fl[k].units - nu);
    assert fl == front + [fl[k]] + back;
    CoversCat(front + [fl[k]], back, a);
    CoversCat(front, [fl[k]], a);
    CoversOne(fl[k], a);
    if fl[k].units == nu {
      CoversCat(front, back, a);
    } else {
      assert Carved(fl, k, nu) == front + [rest] + back;
      CoversCat(front + [rest], back, a);
      CoversCat(front, [rest], a);
      CoversOne(rest, a);
    }
  }

  lemma WithoutCovers(bs: seq<Block>, i: int, a: int)
    requires 0 <= i < |bs|
    ensures Covers(bs, a) <==> Covers(Without(bs, i), a) || Within(bs[i], a)
  {
    assert bs == bs[..i] + [bs[i]] + bs[i + 1..];
    CoversCat(bs[..i] + [bs[i]], bs[i + 1..], a);
    CoversCat(bs[..i], [bs[i]], a);
    CoversOne(bs[i], a);
    CoversCat(bs[..i], bs[i + 1..], a);
  }

  lemma OntoCovers(bs: seq<Block>, b: Block, a: int)
    ensures Covers(bs + [b], a) <==> Covers(bs, a) || Within(b, a)
  {
    CoversCat(bs, [b], a);
    CoversOne(b, a);
  }

  /** What sbrk has given in the first k events. */
  ghost predicate Granted(es: seq<Event>, k: nat, a: int)
    requires k <= |es|
  {
    exists i :: 0 <= i < k && es[i].Grow? && Within(es[i].b, a)
  }

  lemma GrantedStep(es: seq<Event>, k: nat, a: int)
    requires 0 < k <= |es|
    ensures Granted(es, k, a) <==> Granted(es, k - 1, a) || (es[k - 1].Grow? && Within(es[k - 1].b, a))
  {
    if i :| 0 <= i < k - 1 && es[i].Grow? && Within(es[i].b, a) {
      assert Granted(es, k, a);
    }
  }

  /** The units in h are those in g and, if the step is a Grow, those of its block. */
  lemma StepCovers(g: Heap, e: Event, a: int)
    requires HeapOk(g.fl, g.live, g.total) && Enabled(g, e)
    ensures var h := Next(g, e);
            Covers(h.fl, a) || Covers(h.live, a) <==>
            Covers(g.fl, a) || Covers(g.live, a) || (e.Grow? && Within(e.b, a))
  {
    match e
    case Carve(k, nu) =>
      CarvedCovers(g.fl, k, nu, a);
      OntoCovers(g.live, Given(g.fl, k, nu), a);
    case PutBack(i) =>
      InsertCovers(g.fl, g.live[i], a);
      WithoutCovers(g.live, i, a);
    case Grow(b) => InsertCovers(g.fl, b, a);
  }

  lemma RunStep(hs: seq<Heap>, es: seq<Event>, k: nat)
    requires IsRun(hs, es) && hs[0] == Heap([Block(BASE, 0)], [], 0) && k < |es|
    ensures HeapOk(hs[k].fl, hs[k].live, hs[k].total) && Enabled(hs[k], es[k]) && hs[k + 1] == Next(hs[k], es[k])
  {
    HeapSound(hs, es, k);
  }

  /** Conservation, unit by unit: at every point of every run the units in free and live blocks
      are exactly those that sbrk has given, and no unit is in both. */
  lemma HeapPartition(hs: seq<Heap>, es: seq<Event>, k: nat, a: int)
    requires IsRun(hs, es) && hs[0] == Heap([Block(BASE, 0)], [], 0) && k <= |es|
    ensures Covers(hs[k].fl, a) || Covers(hs[k].live, a) <==> Granted(es, k, a)
    ensures !(Covers(hs[k].fl, a) && Covers(hs[k].live, a))
  {
    HeapSound(hs, es, k);
    NeverBoth(hs[k], a);
    forall i | 0 <= i < |es| ensures StepsAt(hs, es, i, a) {
      RunStep(hs, es, i);
      StepCovers(hs[i], es[i], a);
    }
    CoversGranted(hs, es, k, a);
  }

  /** Step i adds unit a only if it grants it, and never loses it. */
  ghost predicate StepsAt(hs: seq<Heap>, es: seq<Event>, i: nat, a: int)
    requires |hs| == |es| + 1 && i < |es|
  {
    Covers(hs[i + 1].fl, a) || Covers(hs[i + 1].live, a) <==>
    Covers(hs[i].fl, a) || Covers(hs[i].live, a) || (es[i].Grow? && Within(es[i].b, a))
  }

  lemma {:induction false} CoversGranted(hs: seq<Heap>, es: seq<Event>, k: nat, a: int)
    requires |hs| == |es| + 1 && k <= |es| && hs[0] == Heap([Block(BASE, 0)], [], 0)
    requires forall i | 0 <= i < |es| :: StepsAt(hs, es, i, a)
    ensures Covers(hs[k].fl, a) || Covers(hs[k].live, a) <==> Granted(es, k, a)
  {
    if k > 0 {
      CoversGranted(hs, es, k - 1, a);
      assert StepsAt(hs, es, k - 1, a);
      GrantedStep(es, k, a);
    }
  }

  lemma NeverBoth(h: Heap, a: int)
    requires HeapOk(h.fl, h.live, h.total)
    ensures !(Covers(h.fl, a) && Covers(h.live, a))
  {
    if i :| 0 <= i < |h.live| && Within(h.live[i], a) {
      forall j | 0 <= j < |h.fl| ensures !Within(h.fl[j], a) {
        assert j == 0 || Apart(h.live[i], h.fl[j]);
      }
    }
  }

  lemma BelowUnique(fl: seq<Block>, addr: int, k: nat, m: nat)
    requires IsBelow(fl, addr, k) && IsBelow(fl, addr, m)
    ensures k == m
  {
  }

  /** free undoes malloc: the block just taken goes back to where it came from, and the list is
      as it was. */
  lemma FreeUndoesMalloc(fl: seq<Block>, k: int, nu: int)
    requires FreeOk(fl) && 1 <= k < |fl| && 1 <= nu <= fl[k].units
    ensures Insert(Carved(fl, k, nu), Given(fl, k, nu)) == fl
  {
    if fl[k].units == nu {
      UndoWhole(fl, k);
    } else {
      UndoPart(fl, k, nu);
    }
  }

  lemma JoinsNone(front: seq<Block>, b: Block, above: seq<Block>)
    requires front != [] && front[|front| - 1].End() < b.addr && (above != [] ==> b.End() < above[0].addr)
    ensures JoinLeft(front, JoinRight(b, above)) == front + ([b] + above)
  {
  }

  lemma JoinsBack(front: seq<Block>, x: Block, b: Block, above: seq<Block>)
    requires x.End() == b.addr && (above != [] ==> b.End() < above[0].addr)
    ensures JoinLeft(front + [x], JoinRight(b, above)) == front + [Block(x.addr, x.units + b.units)] + above
  {
    var below := front + [x];
    assert below[..|below| - 1] == front && below[|below| - 1] == x;
    assert ([b] + above)[1..] == above;
  }

  lemma Gaps(fl: seq<Block>, k: int)
    requires FreeOk(fl) && 1 <= k < |fl|
    ensures fl[k - 1].End() < fl[k].addr && (fl[k + 1..] != [] ==> fl[k].End() < fl[k + 1..][0].addr)
  {
  }

  lemma UndoWhole(fl: seq<Block>, k: int)
    requires FreeOk(fl) && 1 <= k < |fl|
    ensures Insert(Carved(fl, k, fl[k].units), Given(fl, k, fl[k].units)) == fl
  {
    WholeBelow(fl, k);
    Gaps(fl, k);
    WholeBack(fl, k);
  }

  lemma WholeBack(fl: seq<Block>, k: int)
    requires 1 <= k < |fl| && IsBelow(fl[..k] + fl[k + 1..], fl[k].addr, k - 1)
    requires fl[k - 1].End() < fl[k].addr && (fl[k + 1..] != [] ==> fl[k].End() < fl[k + 1..][0].addr)
    ensures Insert(Carved(fl, k, fl[k].units), Given(fl, k, fl[k].units)) == fl
  {
    var rest, b, above := fl[..k] + fl[k + 1..], fl[k], fl[k + 1..];
    assert rest[..k] == fl[..k] && rest[k..] == above;
    BelowUnique(rest, b.addr, k - 1, Below(rest, b.addr));
    JoinsNone(fl[..k], b, above);
    assert fl == fl[..k] + ([b] + above);
  }

  lemma WholeBelow(fl: seq<Block>, k: int)
    requires FreeOk(fl) && 1 <= k < |fl|
    ensures IsBelow(fl[..k] + fl[k + 1..], fl[k].addr, k - 1)
  {
    var rest := fl[..k] + fl[k + 1..];
    assert rest[k - 1] == fl[k - 1] && fl[k - 1].End() < fl[k].addr;
    forall j | k - 1 < j < |rest| ensures rest[j].addr >= fl[k].addr {
      assert rest[j] == fl[j + 1];
    }
  }

  lemma UndoPart(fl: seq<Block>, k: int, nu: int)
    requires FreeOk(fl) && 1 <= k < |fl| && 1 <= nu < fl[k].units
    ensures Insert(Carved(fl, k, nu), Given(fl, k, nu)) == fl
  {
    PartBelow(fl, k, nu);
    Gaps(fl, k);
    PartBack(fl, k, nu);
  }

  lemma PartBack(fl: seq<Block>, k: int, nu: int)
    requires 1 <= k < |fl| && 1 <= nu < fl[k].units && IsBelow(Carved(fl, k, nu), Given(fl, k, nu).addr, k)
    requires fl[k + 1..] != [] ==> fl[k].End() < fl[k + 1..][0].addr
    ensures Insert(Carved(fl, k, nu), Given(fl, k, nu)) == fl
  {
    var rest, b, above := Carved(fl, k, nu), Given(fl, k, nu), fl[k + 1..];
    assert rest[..k + 1] == fl[..k] + [rest[k]] && rest[k + 1..] == above;
    BelowUnique(rest, b.addr, k, Below(rest, b.addr));
    JoinsBack(fl[..k], rest[k], b, above);
    assert fl == fl[..k] + [fl[k]] + above;
  }

  lemma PartBelow(fl: seq<Block>, k: int, nu: int)
    requires FreeOk(fl) && 1 <= k < |fl| && 1 <= nu < fl[k].units
    ensures IsBelow(Carved(fl, k, nu), Given(fl, k, nu).addr, k)
  {
    var rest := Carved(fl, k, nu);
    forall j | k < j < |rest| ensures rest[j].addr >= Given(fl, k, nu).addr {
      assert fl[k].End() < fl[j].addr;
    }
  }
}
