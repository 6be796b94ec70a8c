/** bio.c over the synchronous disk of memide.c: the doubly linked list of buffers, the
    choice of a victim, and the agreement of cache and disk with what was last written. */
module BufferCache {
  import opened Common

  const NBUF := 30

  /** Buffers are 0 .. NBUF - 1; the list head is NBUF. */
  const HEAD := NBUF

  // ------------------------------------------------------- linked rings

  /** Neighbours i and i + 1 of the ring r point at each other. */
  predicate LinkAt(next: seq<int>, prev: seq<int>, r: seq<int>, i: int)
  {
    && 0 <= i < |r| && |next| == |prev| && 0 <= r[i] < |next| && 0 <= r[Succ(|r|, i)] < |next|
    && next[r[i]] == r[Succ(|r|, i)] && prev[r[Succ(|r|, i)]] == r[i]
  }

  predicate Ring(next: seq<int>, prev: seq<int>, r: seq<int>)
  {
    Distinct(r) && forall i | 0 <= i < |r| :: LinkAt(next, prev, r, i)
  }

  /** The first two assignments of brelse's move. */
  lemma {:induction false} Unlinks(next: seq<int>, prev: seq<int>, r: seq<int>, i: int)
    requires Ring(next, prev, r) && 1 <= i < |r|
    ensures LinkAt(next, prev, r, i) && LinkAt(next, prev, r, i - 1)
    ensures Ring(next[r[i - 1] := r[Succ(|r|, i)]], prev[r[Succ(|r|, i)] := r[i - 1]], Without(r, i))
  {
    var p, q := r[i - 1], r[Succ(|r|, i)];
    assert LinkAt(next, prev, r, i) && LinkAt(next, prev, r, i - 1);
    var next', prev' := next[p := q], prev[q := p];
    var w := Without(r, i);
    forall j | 0 <= j < |w| ensures LinkAt(next', prev', w, j) {
      var k := if j < i then j else j + 1;
      assert w[j] == r[k];
      assert LinkAt(next, prev, r, k);
      var j' := Succ(|w|, j);
      assert w[j'] == r[if j' < i then j' else j' + 1];
    }
  }

  /** The last four: b goes in behind the head. */
  lemma {:induction false} LinksFront(next: seq<int>, prev: seq<int>, r: seq<int>, b: int)
    requires Ring(next, prev, r) && r != [] && 0 <= b < |next| && b !in r
    ensures LinkAt(next, prev, r, 0)
    ensures var q := r[Succ(|r|, 0)];
            Ring(next[b := q][r[0] := b], prev[b := r[0]][q := b], [r[0], b] + r[1..])
  {
    var h, q := r[0], r[Succ(|r|, 0)];
    assert LinkAt(next, prev, r, 0);
    var next', prev' := next[b := q][h := b], prev[b := h][q := b];
    var w := [h, b] + r[1..];
    forall j | 0 <= j < |w| ensures LinkAt(next', prev', w, j) {
      if j >= 2 {
        assert w[j] == r[j - 1];
        assert LinkAt(next, prev, r, j - 1);
        assert j + 1 < |w| ==> w[j + 1] == r[j];
      } else if j == 1 {
        assert |w| > 2 ==> w[2] == r[1];
      }
    }
  }

  // --------------------------------------------- what the cache promises

  type Block = seq<bv8>

  datatype Buf = Buf(dev: int, blockno: int, refcnt: int, valid: bool, dirty: bool, data: Block)

  predicate Key(x: Buf, dev: int, blockno: int)
  {
    x.dev == dev && x.blockno == blockno
  }

  /** Free to be recycled: no reference, and not pinned by the log. */
  predicate Unpinned(x: Buf)
  {
    x.refcnt == 0 && !x.dirty
  }

  predicate BufOk(x: Buf, disk: seq<Block>, last: seq<Block>)
  {
    && 0 <= x.refcnt
    && (x.dirty ==> x.valid)
    && (x.valid ==> x.dev == 1 && 0 <= x.blockno < |disk| == |last| && x.data == last[x.blockno])
    && (x.valid && !x.dirty ==> disk[x.blockno] == x.data)
  }

  ghost predicate HeldDirty(bufs: seq<Buf>, k: int)
  {
    exists i :: 0 <= i < |bufs| && bufs[i].valid && bufs[i].dirty && bufs[i].blockno == k
  }

  /** One buffer for each cached block (buffers start out as block 0 of device 0), and
      together with the disk they hold, for every block, the value last written. */
  ghost predicate Agree(bufs: seq<Buf>, disk: seq<Block>, last: seq<Block>)
  {
    && |bufs| == NBUF && |disk| == |last|
    && (forall i | 0 <= i < NBUF :: BufOk(bufs[i], disk, last))
    && (forall i, j | 0 <= i < j < NBUF :: Key(bufs[i], bufs[j].dev, bufs[j].blockno) ==> Key(bufs[i], 0, 0))
    && (forall k | 0 <= k < |disk| :: disk[k] == last[k] || HeldDirty(bufs, k))
  }

  lemma HeldFrame(bufs: seq<Buf>, cs: seq<Buf>, v: int, k: int)
    requires 0 <= v < |bufs| == |cs| && (forall i | 0 <= i < |bufs| && i != v :: cs[i] == bufs[i])
    requires HeldDirty(bufs, k)
    requires bufs[v].valid && bufs[v].dirty && bufs[v].blockno == k ==> cs[v].valid && cs[v].dirty && cs[v].blockno == k
    ensures HeldDirty(cs, k)
  {
    var i :| 0 <= i < |bufs| && bufs[i].valid && bufs[i].dirty && bufs[i].blockno == k;
    assert cs[i].valid && cs[i].dirty && cs[i].blockno == k;
  }

  /** A new reference, or one given back. */
  lemma RefKeeps(bufs: seq<Buf>, disk: seq<Block>, last: seq<Block>, v: int, n: int)
    requires Agree(bufs, disk, last) && 0 <= v < NBUF && 0 <= n
    ensures Agree(bufs[v := bufs[v].(refcnt := n)], disk, last)
  {
    var cs := bufs[v := bufs[v].(refcnt := n)];
    forall k | 0 <= k < |disk| ensures disk[k] == last[k] || HeldDirty(cs, k) {
      if disk[k] != last[k] {
        HeldFrame(bufs, cs, v, k);
      }
    }
  }

  /** Recycling an unpinned buffer loses nothing: what it held is on the disk. */
  lemma RecycleKeeps(bufs: seq<Buf>, disk: seq<Block>, last: seq<Block>, v: int, x: Buf)
    requires Agree(bufs, disk, last) && 0 <= v < NBUF && Unpinned(bufs[v])
    requires x.refcnt == 1 && !x.valid && !x.dirty
    requires forall i | 0 <= i < NBUF :: !Key(bufs[i], x.dev, x.blockno)
    ensures Agree(bufs[v := x], disk, last)
  {
    var cs := bufs[v := x];
    forall k | 0 <= k < |disk| ensures disk[k] == last[k] || HeldDirty(cs, k) {
      if disk[k] != last[k] {
        HeldFrame(bufs, cs, v, k);
      }
    }
  }

  /** A buffer that has not been read yet may be filled from the disk: no other buffer
      holds a newer value of that block. */
  lemma FillKeeps(bufs: seq<Buf>, disk: seq<Block>, last: seq<Block>, v: int)
    requires Agree(bufs, disk, last) && 0 <= v < NBUF && !bufs[v].valid && bufs[v].dev == 1
             && 0 <= bufs[v].blockno < |disk|
    ensures disk[bufs[v].blockno] == last[bufs[v].blockno]
    ensures Agree(bufs[v := bufs[v].(valid := true, data := disk[bufs[v].blockno])], disk, last)
  {
    var k := bufs[v].blockno;
    assert BufOk(bufs[v], disk, last);
    forall i | 0 <= i < NBUF ensures !(bufs[i].valid && bufs[i].dirty && bufs[i].blockno == k) {
      assert BufOk(bufs[i], disk, last);
      assert i < v ==> !Key(bufs[i], 1, k);
      assert i > v ==> !Key(bufs[v], bufs[i].dev, bufs[i].blockno);
    }
    var cs := bufs[v := bufs[v].(valid := true, data := disk[k])];
    forall j | 0 <= j < |disk| ensures disk[j] == last[j] || HeldDirty(cs, j) {
      if disk[j] != last[j] {
        HeldFrame(bufs, cs, v, j);
      }
    }
  }

  lemma OtherBlock(bufs: seq<Buf>, disk: seq<Block>, last: seq<Block>, v: int, i: int)
    requires Agree(bufs, disk, last) && 0 <= v < NBUF && 0 <= i < NBUF && i != v && bufs[v].valid && bufs[i].valid
    ensures bufs[i].blockno != bufs[v].blockno
  {
    assert BufOk(bufs[i], disk, last) && BufOk(bufs[v], disk, last);
    assert i < v ==> !Key(bufs[i], bufs[v].dev, bufs[v].blockno);
    assert i > v ==> !Key(bufs[v], bufs[i].dev, bufs[i].blockno);
  }

  /** Changing the data of a held buffer and pinning it (log_write). */
  lemma PinKeeps(bufs: seq<Buf>, disk: seq<Block>, last: seq<Block>, v: int, x: Block)
    requires Agree(bufs, disk, last) && 0 <= v < NBUF && bufs[v].valid
    ensures 0 <= bufs[v].blockno < |last|
    ensures Agree(bufs[v := bufs[v].(data := x, dirty := true)], disk, last[bufs[v].blockno := x])
  {
    var k := bufs[v].blockno;
    assert BufOk(bufs[v], disk, last);
    var cs, last' := bufs[v := bufs[v].(data := x, dirty := true)], last[k := x];
    forall i | 0 <= i < NBUF ensures BufOk(cs[i], disk, last') {
      assert BufOk(bufs[i], disk, last);
      if i != v && bufs[i].valid {
        OtherBlock(bufs, disk, last, v, i);
      }
    }
    forall j | 0 <= j < |disk| ensures disk[j] == last'[j] || HeldDirty(cs, j) {
      if j == k {
        assert cs[v].valid && cs[v].dirty && cs[v].blockno == k;
      } else if disk[j] != last[j] {
        HeldFrame(bufs, cs, v, j);
      }
    }
  }

  /** Changing the data of a held buffer and writing it through (bwrite). */
  lemma FlushKeeps(bufs: seq<Buf>, disk: seq<Block>, last: seq<Block>, v: int, x: Block)
    requires Agree(bufs, disk, last) && 0 <= v < NBUF && bufs[v].valid
    ensures 0 <= bufs[v].blockno < |last|
    ensures var k := bufs[v].blockno;
            Agree(bufs[v := bufs[v].(data := x, dirty := false)], disk[k := x], last[k := x])
  {
    var k := bufs[v].blockno;
    assert BufOk(bufs[v], disk, last);
    var cs, disk', last' := bufs[v := bufs[v].(data := x, dirty := false)], disk[k := x], last[k := x];
    forall i | 0 <= i < NBUF ensures BufOk(cs[i], disk', last') {
      assert BufOk(bufs[i], disk, last);
      if i != v && bufs[i].valid {
        OtherBlock(bufs, disk, last, v, i);
      }
    }
    forall j | 0 <= j < |disk| ensures disk'[j] == last'[j] || HeldDirty(cs, j) {
      if j != k && disk[j] != last[j] {
        HeldFrame(bufs, cs, v, j);
      }
    }
  }

  // ------------------------------------------------------------ the code

  /** order is the list from head.next to head.prev: all buffers, each once, the most
      recently released first. */
  ghost predicate Listed(next: seq<int>, prev: seq<int>, order: seq<int>, stamp: seq<int>, clock: int)
  {
    && |next| == |prev| == NBUF + 1 && |order| == |stamp| == NBUF
    && (forall i | 0 <= i < NBUF :: 0 <= order[i] < NBUF)
    && (forall b | 0 <= b < NBUF :: b in order)
    && Ring(next, prev, [HEAD] + order)
    && (forall i, j | 0 <= i < j < NBUF :: stamp[order[i]] > stamp[order[j]])
    && (forall b | 0 <= b < NBUF :: stamp[b] < clock)
  }

  /** Moving one buffer to the front keeps the list complete and in order of release. */
  lemma {:induction false} FrontListed(order: seq<int>, stamp: seq<int>, clock: int, i: int)
    requires 0 <= i < |order| == |stamp| == NBUF && Distinct(order)
    requires forall j | 0 <= j < NBUF :: 0 <= order[j] < NBUF
    requires forall b | 0 <= b < NBUF :: b in order
    requires forall j, k | 0 <= j < k < NBUF :: stamp[order[j]] > stamp[order[k]]
    requires forall b | 0 <= b < NBUF :: stamp[b] < clock
    ensures var front, stamp' := [order[i]] + Without(order, i), stamp[order[i] := clock];
            && (forall j | 0 <= j < NBUF :: 0 <= front[j] < NBUF)
            && (forall b | 0 <= b < NBUF :: b in front)
            && (forall j, k | 0 <= j < k < NBUF :: stamp'[front[j]] > stamp'[front[k]])
  {
    var front, stamp' := [order[i]] + Without(order, i), stamp[order[i] := clock];
    forall j | 1 <= j < NBUF
      ensures front[j] == order[if j <= i then j - 1 else j] && stamp'[front[j]] == stamp[front[j]] < clock
    {
    }
    forall b | 0 <= b < NBUF ensures b in front {
      assert b in order;
      var j :| 0 <= j < NBUF && order[j] == b;
      assert front[if j < i then j + 1 else if j == i then 0 else j] == b;
    }
  }

  /** Buffer i is pinned and holds block b. */
  predicate PinnedFor(bufs: seq<Buf>, i: int, b: int)
    requires 0 <= i < |bufs|
  {
    Key(bufs[i], 1, b) && !Unpinned(bufs[i])
  }

  /** Buffers enough for two blocks at once: two unpinned ones, or one if either block is in
      a pinned buffer. */
  ghost predicate Enough(bufs: seq<Buf>, from: int, to: int)
    requires |bufs| == NBUF
  {
    || (exists i, j | 0 <= i < j < NBUF :: Unpinned(bufs[i]) && Unpinned(bufs[j]))
    || ((exists i | 0 <= i < NBUF :: Unpinned(bufs[i]))
        && exists i | 0 <= i < NBUF :: PinnedFor(bufs, i, from) || PinnedFor(bufs, i, to))
  }

  /** What is left for the second block when the first has its buffer b. */
  lemma OneLeft(bufs: seq<Buf>, bufs': seq<Buf>, b: int, from: int, to: int)
    requires |bufs| == |bufs'| == NBUF && 0 <= b < NBUF && bufs' == bufs[b := bufs'[b]] && from != to
             && Enough(bufs, from, to)
    requires forall i, j | 0 <= i < j < NBUF :: Key(bufs[i], bufs[j].dev, bufs[j].blockno) ==> Key(bufs[i], 0, 0)
    requires Key(bufs'[b], 1, from)
    requires !Key(bufs[b], 1, from) ==> Unpinned(bufs[b]) && forall i | 0 <= i < NBUF :: !Key(bufs[i], 1, from)
    ensures exists i | 0 <= i < NBUF :: Key(bufs'[i], 1, to) || Unpinned(bufs'[i])
  {
    if i, j :| 0 <= i < j < NBUF && Unpinned(bufs[i]) && Unpinned(bufs[j]) {
      var k := if i == b then j else i;
      assert Unpinned(bufs'[k]);
    } else {
      var u :| 0 <= u < NBUF && Unpinned(bufs[u]);
      var k :| 0 <= k < NBUF && (PinnedFor(bufs, k, from) || PinnedFor(bufs, k, to));
      if PinnedFor(bufs, k, to) {
        assert Key(bufs'[k], 1, to);
      } else {
        assert k == b;
        assert Unpinned(bufs'[u]);
      }
    }
  }

  class Cache {
    var bufs: seq<Buf>
    var next: seq<int>
    var prev: seq<int>
    var disk: seq<Block>
    ghost var order: seq<int>
    ghost var last: seq<Block>    // the value last written to each block
    ghost var stamp: seq<int>     // when each buffer was last released
    ghost var clock: int

    ghost predicate Valid()
      reads this
    {
      Listed(next, prev, order, stamp, clock) && Agree(bufs, disk, last)
    }

    /** binit, on a disk whose blocks hold what was last written to them. */
    constructor (blocks: seq<Block>)
      ensures Valid() && disk == last == blocks
      ensures forall i | 0 <= i < NBUF :: Unpinned(bufs[i]) && !bufs[i].valid
    {
      bufs := seq(NBUF, _ => Buf(0, 0, 0, false, false, []));
      disk, last := blocks, blocks;
      next, prev := seq(NBUF + 1, _ => HEAD), seq(NBUF + 1, _ => HEAD);
      new;
      ghost var ring: seq<int> := [HEAD];
      assert LinkAt(next, prev, ring, 0);
      var b := 0;
      while b < NBUF
        invariant 0 <= b <= NBUF && |next| == |prev| == NBUF + 1
        invariant Ring(next, prev, ring) && |ring| == b + 1 && ring[0] == HEAD
        invariant forall j | 1 <= j <= b :: ring[j] == b - j
        invariant disk == last == blocks && bufs == seq(NBUF, _ => Buf(0, 0, 0, false, false, []))
      {
        LinkFront(b, ring);
        ring := [HEAD, b] + ring[1..];
        b := b + 1;
      }
      order, stamp, clock := ring[1..], seq(NBUF, i => i), NBUF;
      assert [HEAD] + order == ring;
      assert forall j | 0 <= j < NBUF :: order[j] == NBUF - 1 - j;
      forall c | 0 <= c < NBUF ensures c in order {
        assert order[NBUF - 1 - c] == c;
      }
    }

    /** Takes b out of the list. */
    method Unlink(b: int, ghost r: seq<int>, ghost i: int)
      requires Ring(next, prev, r) && 1 <= i < |r| && r[i] == b
      modifies this`next, this`prev
      ensures |next| == |prev| == |old(next)| && Ring(next, prev, Without(r, i))
    {
      Unlinks(next, prev, r, i);
      assert r[Succ(|r|, i)] != b;
      prev := prev[next[b] := prev[b]];
      next := next[prev[b] := next[b]];
    }

    /** Puts b into the list, behind the head. */
    method LinkFront(b: int, ghost r: seq<int>)
      requires Ring(next, prev, r) && r != [] && r[0] == HEAD && 0 <= b < |next| && b !in r
      modifies this`next, this`prev
      ensures |next| == |prev| == |old(next)| && Ring(next, prev, [HEAD, b] + r[1..])
    {
      LinksFront(next, prev, r, b);
      next := next[b := next[HEAD]];
      prev := prev[b := HEAD];
      prev := prev[next[HEAD] := b];
      next := next[HEAD := b];
    }

    /** bget's search, from the most recently used end. */
    method Find(dev: int, blockno: int) returns (b: int)
      requires Valid()
      ensures b == HEAD <==> forall i | 0 <= i < NBUF :: !Key(bufs[i], dev, blockno)
      ensures b != HEAD ==> 0 <= b < NBUF && Key(bufs[b], dev, blockno)
    {
      ghost var ring, pos := [HEAD] + order, 1;
      assert LinkAt(next, prev, ring, 0);
      b := next[HEAD];
      while b != HEAD && !Key(bufs[b], dev, blockno)
        invariant 1 <= pos <= |ring| && b == ring[if pos < |ring| then pos else 0]
        invariant forall i | 1 <= i < pos :: !Key(bufs[ring[i]], dev, blockno)
        decreases |ring| - pos
      {
        assert LinkAt(next, prev, ring, pos);
        b := next[b];
        pos := pos + 1;
      }
      if b == HEAD {
        forall i | 0 <= i < NBUF ensures !Key(bufs[i], dev, blockno) {
          assert i in order;
          var j :| 0 <= j < NBUF && order[j] == i;
          assert ring[j + 1] == i;
        }
      }
    }

    /** bget's choice of a victim, from the other end: of the unpinned buffers the one
        whose last release is longest ago. */
    method Victim() returns (b: int)
      requires Valid()
      ensures b == HEAD <==> forall i | 0 <= i < NBUF :: !Unpinned(bufs[i])
      ensures b != HEAD ==> && 0 <= b < NBUF && Unpinned(bufs[b])
                            && forall i | 0 <= i < NBUF && Unpinned(bufs[i]) && i != b :: stamp[b] < stamp[i]
    {
      ghost var ring, pos := [HEAD] + order, NBUF;
      assert LinkAt(next, prev, ring, NBUF);
      b := prev[HEAD];
      while b != HEAD && !(bufs[b].refcnt == 0 && !bufs[b].dirty)
        invariant 0 <= pos <= NBUF && b == ring[pos]
        invariant forall i | pos < i <= NBUF :: !Unpinned(bufs[ring[i]])
        decreases pos
      {
        assert LinkAt(next, prev, ring, pos - 1);
        b := prev[b];
        pos := pos - 1;
      }
      forall i | 0 <= i < NBUF && Unpinned(bufs[i])
        ensures b != HEAD && (i != b ==> stamp[b] < stamp[i])
      {
        assert i in order;
        var j :| 0 <= j < NBUF && order[j] == i;
        assert ring[j + 1] == i;
        assert j + 1 <= pos;
        assert b == order[pos - 1];
      }
    }

    /** bget; -1 is the panic for want of buffers. */
    method Bget(dev: int, blockno: int) returns (b: int)
      requires Valid()
      modifies this`bufs
      ensures Valid()
      ensures b == -1 ==> && bufs == old(bufs)
                          && forall i | 0 <= i < NBUF :: !Key(bufs[i], dev, blockno) && !Unpinned(bufs[i])
      ensures b != -1 ==> && 0 <= b < NBUF && Key(bufs[b], dev, blockno) && bufs[b].refcnt == old(bufs)[b].refcnt + 1
                          && bufs == old(bufs)[b := bufs[b]]
      ensures b != -1 && Key(old(bufs)[b], dev, blockno) ==> bufs[b] == old(bufs)[b].(refcnt := bufs[b].refcnt)
      ensures b != -1 && !Key(old(bufs)[b], dev, blockno) ==>
                && !bufs[b].valid && Unpinned(old(bufs)[b])
                && (forall i | 0 <= i < NBUF :: !Key(old(bufs)[i], dev, blockno))
                && (forall i | 0 <= i < NBUF && Unpinned(old(bufs)[i]) && i != b :: stamp[b] < stamp[i])
    {
      b := Find(dev, blockno);
      if b != HEAD {
        assert BufOk(bufs[b], disk, last);
        RefKeeps(bufs, disk, last, b, bufs[b].refcnt + 1);
        bufs := bufs[b := bufs[b].(refcnt := bufs[b].refcnt + 1)];
        return;
      }
      b := Victim();
      if b == HEAD {
        return -1;
      }
      var x := Buf(dev, blockno, 1, false, false, bufs[b].data);
      RecycleKeeps(bufs, disk, last, b, x);
      bufs := bufs[b := x];
    }

    /** bread: a buffer with the value last written to the block; -1 is a panic.  No other
        buffer changes, and one that is recycled is the unpinned buffer whose last release
        is longest ago. */
    method Bread(dev: int, blockno: int) returns (b: int)
      requires Valid()
      modifies this`bufs
      ensures Valid()
      ensures b != -1 ==> && 0 <= b < NBUF && Key(bufs[b], dev, blockno) && bufs[b].refcnt >= 1
                          && dev == 1 && 0 <= blockno < |last| && bufs[b].valid && bufs[b].data == last[blockno]
      ensures b != -1 ==> bufs == old(bufs)[b := bufs[b]] && bufs[b].refcnt == old(bufs)[b].refcnt + 1
      ensures b != -1 && Key(old(bufs)[b], dev, blockno) ==> bufs[b].dirty == old(bufs)[b].dirty
      ensures b != -1 && !Key(old(bufs)[b], dev, blockno) ==>
                && !bufs[b].dirty && Unpinned(old(bufs)[b])
                && (forall i | 0 <= i < NBUF :: !Key(old(bufs)[i], dev, blockno))
                && (forall i | 0 <= i < NBUF && Unpinned(old(bufs)[i]) && i != b :: stamp[b] < stamp[i])
      ensures dev == 1 && 0 <= blockno < |last| ==>
                (b == -1 <==> forall i | 0 <= i < NBUF :: !Key(old(bufs)[i], dev, blockno) && !Unpinned(old(bufs)[i]))
    {
      b := Bget(dev, blockno);
      if b == -1 {
        return;
      }
      assert BufOk(bufs[b], disk, last);
      if !bufs[b].valid {
        // iderw
        if dev != 1 || !(0 <= blockno < |disk|) {
          return -1;
        }
        FillKeeps(bufs, disk, last, b);
        bufs := bufs[b := bufs[b].(valid := true, data := disk[blockno])];
      }
    }

    /** The holder of a buffer changes it and calls log_write: the value is the block's,
        and the buffer is pinned. */
    method ModifyAndLog(b: int, x: Block)
      requires Valid() && 0 <= b < NBUF && bufs[b].valid && bufs[b].refcnt >= 1
      modifies this`bufs, this`last
      ensures Valid() && bufs == old(bufs)[b := old(bufs)[b].(data := x, dirty := true)]
      ensures 0 <= bufs[b].blockno < |old(last)| && last == old(last)[bufs[b].blockno := x]
      ensures !Unpinned(bufs[b])
    {
      PinKeeps(bufs, disk, last, b, x);
      last := last[bufs[b].blockno := x];
      bufs := bufs[b := bufs[b].(data := x, dirty := true)];
    }

    /** The holder of a buffer changes it and calls bwrite. */
    method ModifyAndWrite(b: int, x: Block)
      requires Valid() && 0 <= b < NBUF && bufs[b].valid && bufs[b].refcnt >= 1
      modifies this`bufs, this`last, this`disk
      ensures Valid() && bufs == old(bufs)[b := old(bufs)[b].(data := x, dirty := false)]
      ensures 0 <= bufs[b].blockno < |old(last)| && last == old(last)[bufs[b].blockno := x]
      ensures |disk| == |old(disk)| && disk == old(disk)[bufs[b].blockno := x]
    {
      FlushKeeps(bufs, disk, last, b, x);
      ghost var k := bufs[b].blockno;
      last := last[k := x];
      bufs := bufs[b := bufs[b].(data := x, dirty := true)];
      // iderw
      disk := disk[bufs[b].blockno := bufs[b].data];
      bufs := bufs[b := bufs[b].(dirty := false)];
      assert bufs == old(bufs)[b := old(bufs)[b].(data := x, dirty := false)];
    }

    /** Two buffers at once, as in one round of install_trans or write_log: block from is
        copied to block to and written through.  Every reference taken is given back.  The
        second buffer may be one that is pinned already, as that of a logged block is. */
    method CopyBlock(from: int, to: int) returns (ok: bool)
      requires Valid() && 0 <= from < |last| && 0 <= to < |last| && from != to
      modifies this
      ensures Valid()
      ensures Enough(old(bufs), from, to) ==> ok
      ensures ok ==> && last == old(last)[to := old(last)[from]]
                     && |disk| == |old(disk)| == |last| && disk == old(disk)[to := old(last)[from]]
      ensures ok ==> forall i | 0 <= i < NBUF :: bufs[i].refcnt == old(bufs)[i].refcnt
    {
      var lbuf, dbuf := BreadTwo(from, to);
      if dbuf == -1 {
        return false;
      }
      ModifyAndWrite(dbuf, bufs[lbuf].data);
      Brelse(lbuf);
      Brelse(dbuf);
      ok := true;
    }

    /** Two breads; dbuf is -1 if either panics. */
    method BreadTwo(from: int, to: int) returns (lbuf: int, dbuf: int)
      requires Valid() && 0 <= from < |last| && 0 <= to < |last| && from != to
      modifies this`bufs
      ensures Valid()
      ensures Enough(old(bufs), from, to) ==> dbuf != -1
      ensures dbuf != -1 ==> && 0 <= lbuf < NBUF && 0 <= dbuf < NBUF && lbuf != dbuf
                             && bufs[lbuf].valid && bufs[lbuf].data == last[from]
                             && bufs[dbuf].valid && bufs[dbuf].blockno == to
      ensures dbuf != -1 ==> forall i | 0 <= i < NBUF ::
                               bufs[i].refcnt == old(bufs)[i].refcnt + if i == lbuf || i == dbuf then 1 else 0
    {
      lbuf := Bread(1, from);
      if lbuf == -1 {
        return -1, -1;
      }
      ghost var bufs1 := bufs;
      if Enough(old(bufs), from, to) {
        OneLeft(old(bufs), bufs1, lbuf, from, to);
      }
      assert BufOk(bufs1[lbuf], disk, last);
      dbuf := Bread(1, to);
      assert dbuf != -1 ==> dbuf != lbuf && bufs[lbuf] == bufs1[lbuf];
    }

    /** The move to the most recently used end in brelse. */
    method MoveToFront(b: int, ghost i: int)
      requires Listed(next, prev, order, stamp, clock) && 0 <= i < NBUF && order[i] == b
      modifies this`next, this`prev, this`order, this`stamp, this`clock
      ensures Listed(next, prev, order, stamp, clock)
      ensures order == [b] + Without(old(order), i) && stamp == old(stamp)[b := old(clock)]
    {
      ghost var ring := [HEAD] + order;
      Unlink(b, ring, i + 1);
      ghost var rest := Without(ring, i + 1);
      assert rest == [HEAD] + Without(order, i);
      LinkFront(b, rest);
      FrontListed(order, stamp, clock, i);
      order := [b] + Without(order, i);
      assert [HEAD, b] + rest[1..] == [HEAD] + order;
      stamp := stamp[b := clock];
      clock := clock + 1;
    }

    /** brelse. */
    method Brelse(b: int)
      requires Valid() && 0 <= b < NBUF && bufs[b].refcnt >= 1
      modifies this`bufs, this`next, this`prev, this`order, this`stamp, this`clock
      ensures Valid() && bufs == old(bufs)[b := old(bufs)[b].(refcnt := old(bufs)[b].refcnt - 1)]
      ensures bufs[b].refcnt != 0 ==> order == old(order) && stamp == old(stamp)
      ensures bufs[b].refcnt == 0 ==> && stamp == old(stamp)[b := old(clock)]
                                      && forall i | 0 <= i < NBUF && i != b :: stamp[i] < stamp[b]
    {
      RefKeeps(bufs, disk, last, b, bufs[b].refcnt - 1);
      bufs := bufs[b := bufs[b].(refcnt := bufs[b].refcnt - 1)];
      if bufs[b].refcnt == 0 {
        assert b in order;
        ghost var i :| 0 <= i < NBUF && order[i] == b;
        MoveToFront(b, i);
      }
    }
  }
}
