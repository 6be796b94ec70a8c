/** Files as seen through the block references of fs.c: the slots of an inode, the blocks
    behind them, and one flat byte sequence per file. */
module FsView {
  import opened FsBytes
  import opened FsOwners

  /** Slot k < MAXFILE is block k of the file, direct or through the indirect block; slot
      MAXFILE is the indirect block itself.  0 stands for none. */
  const SLOTS := 141

  function Slot(disk: seq<Block>, p: Inode, k: int): int
    requires |p.addrs| == NDIRECT + 1 && 0 <= k < SLOTS
  {
    var a := p.addrs[NDIRECT];
    if k < NDIRECT then p.addrs[k]
    else if k == MAXFILE then a
    else if 0 < a < |disk| then Entry(disk[a], k - NDIRECT)
    else 0
  }

  function Slots(disk: seq<Block>, p: Inode): seq<int>
    requires |p.addrs| == NDIRECT + 1
  {
    seq(SLOTS, k requires 0 <= k < SLOTS => Slot(disk, p, k))
  }

  predicate AllStorable(inodes: seq<Inode>)
  {
    forall i | 0 <= i < |inodes| :: Storable(inodes[i])
  }

  function AllSlots(disk: seq<Block>, inodes: seq<Inode>): seq<seq<int>>
    requires AllStorable(inodes)
  {
    seq(|inodes|, i requires 0 <= i < |inodes| => Slots(disk, inodes[i]))
  }

  function Blk(disk: seq<Block>, b: int): Block
  {
    if 0 < b < |disk| then disk[b] else Zeros()
  }

  /** The blocks of a file; a missing one reads as zeros. */
  function Blocks(disk: seq<Block>, p: Inode): seq<Block>
    requires |p.addrs| == NDIRECT + 1
  {
    seq(MAXFILE, k requires 0 <= k < MAXFILE => Blk(disk, Slot(disk, p, k)))
  }

  function Flat(bs: seq<Block>): (r: seq<byte>)
    ensures |r| == BSIZE * |bs|
  {
    seq(BSIZE * |bs|, x requires 0 <= x < BSIZE * |bs| => bs[x / BSIZE][x % BSIZE])
  }

  /** The contents of a file. */
  function Content(disk: seq<Block>, p: Inode): seq<byte>
    requires |p.addrs| == NDIRECT + 1 && 0 <= p.size <= MAXFILE * BSIZE
  {
    Flat(Blocks(disk, p))[..p.size]
  }

  /** Byte x of a file is in the block that the address for x / 512 names: one of the twelve in
      the inode, or a word of the indirect block. */
  lemma ContentAt(disk: seq<Block>, p: Inode, x: int)
    requires |p.addrs| == NDIRECT + 1 && 0 <= x < p.size <= MAXFILE * BSIZE
    requires x / 512 >= 12 ==> 0 < p.addrs[12] < |disk|
    ensures var k := x / 512;
            var b := if k < 12 then p.addrs[k] else Word(disk[p.addrs[12]], 4 * (k - 12));
            0 < b < |disk| ==> Content(disk, p)[x] == disk[b][x % 512]
  {
    if x / 512 >= 12 {
      EntryPlace(disk[p.addrs[12]], x / 512 - 12);
    }
  }

  // ------------------------------------------------------- the invariant

  predicate Sane(g: Super, disk: seq<Block>, inodes: seq<Inode>)
  {
    Formatted(g) && |disk| == g.size && |inodes| == g.ninodes && AllStorable(inodes)
  }

  ghost predicate Owned(g: Super, disk: seq<Block>, inodes: seq<Inode>, extra: set<int>)
  {
    Sane(g, disk, inodes) && Consistent(Bits(g, disk), AllSlots(disk, inodes), extra, g.data)
  }

  /** No holes below the size. */
  ghost predicate Solid(disk: seq<Block>, p: Inode)
  {
    && Storable(p) && p.size <= MAXFILE * BSIZE
    && forall k | 0 <= k < MAXFILE && k * BSIZE < p.size :: Slot(disk, p, k) != 0
  }

  ghost predicate AllSolid(disk: seq<Block>, inodes: seq<Inode>)
  {
    forall i | 0 <= i < |inodes| :: Solid(disk, inodes[i])
  }

  predicate Synced(g: Super, disk: seq<Block>, inodes: seq<Inode>, i: int)
    requires Sane(g, disk, inodes) && 0 <= i < |inodes|
  {
    Dinode(g, disk, i) == inodes[i]
  }

  // --------------------------------------------------- one inode changes

  lemma SlotsFrame(disk: seq<Block>, disk': seq<Block>, p: Inode)
    requires |p.addrs| == NDIRECT + 1 && |disk| == |disk'|
    requires var a := p.addrs[NDIRECT]; 0 < a < |disk| ==> disk'[a] == disk[a]
    ensures Slots(disk', p) == Slots(disk, p)
  {
  }

  lemma DirectSlot(disk: seq<Block>, p: Inode, k: int, b: int)
    requires |p.addrs| == NDIRECT + 1 && 0 <= k < NDIRECT
    ensures Slots(disk, p.(addrs := p.addrs[k := b])) == Slots(disk, p)[k := b]
  {
  }

  lemma IndirectSlot(disk: seq<Block>, p: Inode, b: int)
    requires |p.addrs| == NDIRECT + 1 && p.addrs[NDIRECT] == 0 && 0 < b < |disk| && disk[b] == Zeros()
    ensures Slots(disk, p.(addrs := p.addrs[NDIRECT := b])) == Slots(disk, p)[MAXFILE := b]
  {
    forall k | 0 <= k < NINDIRECT ensures Entry(disk[b], k) == 0 {
      EntryZero(k);
    }
  }

  lemma EntrySlot(disk: seq<Block>, p: Inode, k: int, v: int)
    requires |p.addrs| == NDIRECT + 1 && NDIRECT <= k < MAXFILE && 0 <= v < WORDS && 0 < p.addrs[NDIRECT] < |disk|
    ensures var a := p.addrs[NDIRECT];
            Slots(disk[a := PutEntry(disk[a], k - NDIRECT, v)], p) == Slots(disk, p)[k := v]
  {
    var a := p.addrs[NDIRECT];
    var disk' := disk[a := PutEntry(disk[a], k - NDIRECT, v)];
    forall j | 0 <= j < SLOTS ensures Slots(disk', p)[j] == if j == k then v else Slots(disk, p)[j] {
      EntrySlotAt(disk, p, k, v, j);
    }
  }

  lemma EntrySlotAt(disk: seq<Block>, p: Inode, k: int, v: int, j: int)
    requires |p.addrs| == NDIRECT + 1 && NDIRECT <= k < MAXFILE && 0 <= v < WORDS && 0 < p.addrs[NDIRECT] < |disk|
    requires 0 <= j < SLOTS
    ensures var a := p.addrs[NDIRECT];
            Slots(disk[a := PutEntry(disk[a], k - NDIRECT, v)], p)[j] == if j == k then v else Slots(disk, p)[j]
  {
    if NDIRECT <= j < MAXFILE {
      EntryPut(disk[p.addrs[NDIRECT]], k - NDIRECT, v, j - NDIRECT);
    }
  }

  // --------------------------------------------------- many inodes

  /** Every block that some inode refers to is the same on both disks. */
  ghost predicate RefsKept(disk: seq<Block>, disk': seq<Block>, inodes: seq<Inode>)
    requires AllStorable(inodes)
  {
    && |disk| == |disk'|
    && forall i, k | 0 <= i < |inodes| && 0 <= k < SLOTS ::
         Blk(disk', AllSlots(disk, inodes)[i][k]) == Blk(disk, AllSlots(disk, inodes)[i][k])
  }

  lemma Quiet(disk: seq<Block>, disk': seq<Block>, inodes: seq<Inode>)
    requires AllStorable(inodes) && RefsKept(disk, disk', inodes)
    ensures AllSlots(disk', inodes) == AllSlots(disk, inodes)
    ensures forall i | 0 <= i < |inodes| :: Blocks(disk', inodes[i]) == Blocks(disk, inodes[i])
  {
    forall i | 0 <= i < |inodes|
      ensures Slots(disk', inodes[i]) == Slots(disk, inodes[i]) && Blocks(disk', inodes[i]) == Blocks(disk, inodes[i])
    {
      var p := inodes[i];
      assert AllSlots(disk, inodes)[i][MAXFILE] == p.addrs[NDIRECT];
      SlotsFrame(disk, disk', p);
      forall k | 0 <= k < MAXFILE ensures Blocks(disk', p)[k] == Blocks(disk, p)[k] {
        assert AllSlots(disk, inodes)[i][k] == Slot(disk, p, k) == Slots(disk', p)[k];
      }
    }
  }

  /** The effect of balloc on the disk. */
  ghost predicate Fresh(g: Super, disk: seq<Block>, disk': seq<Block>, b: int)
  {
    && Formatted(g) && |disk| == |disk'| == g.size && 0 <= b < g.size
    && !Bit(g, disk, b) && Bits(g, disk') == Bits(g, disk)[b := true] && disk'[b] == Zeros()
    && (forall c | g.data <= c < g.size && c != b :: disk'[c] == disk[c])
    && (forall c | 0 <= c < g.bmapstart :: disk'[c] == disk[c])
  }

  /** The effect of bfree. */
  ghost predicate Cleared(g: Super, disk: seq<Block>, disk': seq<Block>, b: int)
  {
    && Formatted(g) && |disk| == |disk'| == g.size && 0 <= b < g.size
    && Bit(g, disk, b) && Bits(g, disk') == Bits(g, disk)[b := false]
    && (forall c | g.data <= c < g.size :: disk'[c] == disk[c])
    && (forall c | 0 <= c < g.bmapstart :: disk'[c] == disk[c])
  }

  lemma DinodeFrame(g: Super, disk: seq<Block>, disk': seq<Block>, i: int)
    requires Formatted(g) && |disk| == |disk'| == g.size && 0 <= i < g.ninodes
    requires forall c | 0 <= c < g.bmapstart :: disk'[c] == disk[c]
    ensures Dinode(g, disk', i) == Dinode(g, disk, i)
  {
    assert disk'[g.inodestart + i / IPB] == disk[g.inodestart + i / IPB];
  }

  lemma BitsFrame(g: Super, disk: seq<Block>, disk': seq<Block>)
    requires Formatted(g) && |disk| == |disk'| == g.size
    requires forall c | g.bmapstart <= c < g.data :: disk'[c] == disk[c]
    ensures Bits(g, disk') == Bits(g, disk)
  {
    forall b | 0 <= b < g.size ensures Bit(g, disk', b) == Bit(g, disk, b) {
      assert disk'[g.bmapstart + b / BPB] == disk[g.bmapstart + b / BPB];
    }
  }

  ghost predicate FilesKept(disk: seq<Block>, inodes: seq<Inode>, disk': seq<Block>, inodes': seq<Inode>)
  {
    && AllStorable(inodes) && AllStorable(inodes') && |inodes| == |inodes'|
    && forall i | 0 <= i < |inodes| :: Blocks(disk', inodes'[i]) == Blocks(disk, inodes[i])
  }

  lemma FreshKeeps(g: Super, disk: seq<Block>, disk': seq<Block>, inodes: seq<Inode>, extra: set<int>, b: int)
    requires Owned(g, disk, inodes, extra) && Fresh(g, disk, disk', b)
    ensures g.data <= b && b !in extra && Owned(g, disk', inodes, extra + {b})
    ensures AllSlots(disk', inodes) == AllSlots(disk, inodes) && FilesKept(disk, inodes, disk', inodes)
  {
    var sl := AllSlots(disk, inodes);
    Allocated(Bits(g, disk), sl, extra, g.data, b);
    forall i, k | 0 <= i < |inodes| && 0 <= k < SLOTS ensures Blk(disk', sl[i][k]) == Blk(disk, sl[i][k]) {
      assert sl[i][k] != b;
    }
    Quiet(disk, disk', inodes);
  }

  lemma ClearedKeeps(g: Super, disk: seq<Block>, disk': seq<Block>, inodes: seq<Inode>, extra: set<int>, b: int)
    requires Owned(g, disk, inodes, extra) && Cleared(g, disk, disk', b) && b in extra
    ensures Owned(g, disk', inodes, extra - {b})
    ensures AllSlots(disk', inodes) == AllSlots(disk, inodes) && FilesKept(disk, inodes, disk', inodes)
  {
    var sl := AllSlots(disk, inodes);
    Freed(Bits(g, disk), sl, extra, g.data, b);
    forall i, k | 0 <= i < |inodes| && 0 <= k < SLOTS ensures Blk(disk', sl[i][k]) == Blk(disk, sl[i][k]) {
    }
    Quiet(disk, disk', inodes);
  }

  /** Giving a fresh, zeroed block to an empty slot changes the contents of no file. */
  lemma AttachAddr(g: Super, disk: seq<Block>, inodes: seq<Inode>, i: int, k: int, b: int)
    requires Owned(g, disk, inodes, {b}) && disk[b] == Zeros() && 0 <= i < |inodes| && 0 <= k <= NDIRECT
    requires inodes[i].addrs[k] == 0
    ensures var s, p := if k < NDIRECT then k else MAXFILE, inodes[i].(addrs := inodes[i].addrs[k := b]);
            && Owned(g, disk, inodes[i := p], {}) && FilesKept(disk, inodes, disk, inodes[i := p])
            && Slots(disk, p) == Slots(disk, inodes[i])[s := b]
  {
    var s, p := if k < NDIRECT then k else MAXFILE, inodes[i].(addrs := inodes[i].addrs[k := b]);
    var sl := AllSlots(disk, inodes);
    if k < NDIRECT {
      DirectSlot(disk, inodes[i], k, b);
    } else {
      IndirectSlot(disk, inodes[i], b);
    }
    Attached(Bits(g, disk), sl, {b}, g.data, b, i, s);
    assert AllSlots(disk, inodes[i := p]) == sl[i := sl[i][s := b]];
    SlotFilled(disk, inodes[i], disk, p, s, b);
  }

  /** A slot that was empty now holds a zeroed block; the other blocks are the same. */
  lemma SlotFilled(disk: seq<Block>, p: Inode, disk': seq<Block>, p': Inode, s: int, b: int)
    requires |p.addrs| == |p'.addrs| == NDIRECT + 1 && 0 <= s < SLOTS && Slots(disk', p') == Slots(disk, p)[s := b]
    requires Slots(disk, p)[s] == 0 && 0 < b < |disk'| && disk'[b] == Zeros() && |disk| == |disk'|
    requires forall c | 0 <= c < MAXFILE :: Blk(disk', Slots(disk, p)[c]) == Blk(disk, Slots(disk, p)[c])
    ensures Blocks(disk', p') == Blocks(disk, p)
  {
    forall c | 0 <= c < MAXFILE ensures Blocks(disk', p')[c] == Blocks(disk, p)[c] {
      assert Slots(disk', p')[c] == Slot(disk', p', c) && Slots(disk, p)[c] == Slot(disk, p, c);
    }
  }

  /** Changing a block that inode i refers to leaves the bitmap, the inode blocks and all
      other files alone. */
  lemma OneBlock(g: Super, disk: seq<Block>, inodes: seq<Inode>, extra: set<int>, i: int, s: int, b: int, nb: Block)
    requires Owned(g, disk, inodes, extra) && 0 <= i < |inodes| && 0 <= s < SLOTS && b == Slot(disk, inodes[i], s) != 0
    ensures g.data <= b < g.size && Bits(g, disk[b := nb]) == Bits(g, disk)
    ensures forall j | 0 <= j < |inodes| :: Dinode(g, disk[b := nb], j) == Dinode(g, disk, j)
    ensures forall j | 0 <= j < |inodes| && j != i ::
              Slots(disk[b := nb], inodes[j]) == Slots(disk, inodes[j])
                && Blocks(disk[b := nb], inodes[j]) == Blocks(disk, inodes[j])
  {
    var sl := AllSlots(disk, inodes);
    assert sl[i][s] == b;
    var disk' := disk[b := nb];
    BitsFrame(g, disk, disk');
    forall j | 0 <= j < |inodes| ensures Dinode(g, disk', j) == Dinode(g, disk, j) {
      DinodeFrame(g, disk, disk', j);
    }
    forall j | 0 <= j < |inodes| && j != i
      ensures Slots(disk', inodes[j]) == Slots(disk, inodes[j]) && Blocks(disk', inodes[j]) == Blocks(disk, inodes[j])
    {
      assert sl[j][MAXFILE] == inodes[j].addrs[NDIRECT];
      SlotsFrame(disk, disk', inodes[j]);
      forall k | 0 <= k < MAXFILE ensures Blocks(disk', inodes[j])[k] == Blocks(disk, inodes[j])[k] {
        assert sl[j][k] == Slot(disk, inodes[j], k) == Slots(disk', inodes[j])[k];
      }
    }
  }

  lemma EntryOwned(g: Super, disk: seq<Block>, inodes: seq<Inode>, i: int, k: int, b: int)
    requires Owned(g, disk, inodes, {b}) && 0 <= i < |inodes| && NDIRECT <= k < MAXFILE
    requires inodes[i].addrs[NDIRECT] != 0 && Slot(disk, inodes[i], k) == 0
    ensures var a := inodes[i].addrs[NDIRECT];
            && 0 < a < |disk|
            && var disk' := disk[a := PutEntry(disk[a], k - NDIRECT, b)];
            Owned(g, disk', inodes, {}) && Slots(disk', inodes[i]) == Slots(disk, inodes[i])[k := b]
  {
    var a, sl := inodes[i].addrs[NDIRECT], AllSlots(disk, inodes);
    assert sl[i][MAXFILE] == a && sl[i][k] == 0;
    OneBlock(g, disk, inodes, {b}, i, MAXFILE, a, PutEntry(disk[a], k - NDIRECT, b));
    EntrySlot(disk, inodes[i], k, b);
    Attached(Bits(g, disk), sl, {b}, g.data, b, i, k);
    assert AllSlots(disk[a := PutEntry(disk[a], k - NDIRECT, b)], inodes) == sl[i := sl[i][k := b]];
  }

  /** Entering a fresh, zeroed block in the indirect block. */
  lemma AttachEntry(g: Super, disk: seq<Block>, inodes: seq<Inode>, i: int, k: int, b: int)
    requires Owned(g, disk, inodes, {b}) && disk[b] == Zeros() && 0 <= i < |inodes| && NDIRECT <= k < MAXFILE
    requires inodes[i].addrs[NDIRECT] != 0 && Slot(disk, inodes[i], k) == 0
    ensures var a := inodes[i].addrs[NDIRECT];
            && 0 < a < |disk|
            && var disk' := disk[a := PutEntry(disk[a], k - NDIRECT, b)];
            && Owned(g, disk', inodes, {}) && FilesKept(disk, inodes, disk', inodes)
            && Slots(disk', inodes[i]) == Slots(disk, inodes[i])[k := b]
  {
    var a, p, sl := inodes[i].addrs[NDIRECT], inodes[i], AllSlots(disk, inodes);
    assert sl[i][MAXFILE] == a;
    EntryOwned(g, disk, inodes, i, k, b);
    OneBlock(g, disk, inodes, {b}, i, MAXFILE, a, PutEntry(disk[a], k - NDIRECT, b));
    var disk' := disk[a := PutEntry(disk[a], k - NDIRECT, b)];
    forall c | 0 <= c < MAXFILE ensures Blk(disk', Slots(disk, p)[c]) == Blk(disk, Slots(disk, p)[c]) {
      assert sl[i][c] == Slots(disk, p)[c] != a;
    }
    SlotFilled(disk, p, disk', p, k, b);
  }

  /** Writing block k of file i. */
  lemma FileWrite(g: Super, disk: seq<Block>, inodes: seq<Inode>, i: int, k: int, nb: Block)
    requires Owned(g, disk, inodes, {}) && 0 <= i < |inodes| && 0 <= k < MAXFILE && Slot(disk, inodes[i], k) != 0
    ensures var b := Slot(disk, inodes[i], k);
            && 0 < b < |disk|
            && var disk' := disk[b := nb];
            && Owned(g, disk', inodes, {}) && AllSlots(disk', inodes) == AllSlots(disk, inodes)
            && Blocks(disk', inodes[i]) == Blocks(disk, inodes[i])[k := nb]
            && forall j | 0 <= j < |inodes| && j != i :: Blocks(disk', inodes[j]) == Blocks(disk, inodes[j])
  {
    var b, p, sl := Slot(disk, inodes[i], k), inodes[i], AllSlots(disk, inodes);
    assert sl[i][k] == b && sl[i][MAXFILE] == p.addrs[NDIRECT] != b;
    var disk' := disk[b := nb];
    OneBlock(g, disk, inodes, {}, i, k, b, nb);
    SlotsFrame(disk, disk', p);
    assert AllSlots(disk', inodes) == sl;
    forall c | 0 <= c < MAXFILE ensures Blocks(disk', p)[c] == Blocks(disk, p)[k := nb][c] {
      assert sl[i][c] == Slot(disk, p, c) == Slots(disk', p)[c] == Slot(disk', p, c);
    }
  }

  /** Part of one block written is the same part of the file written. */
  lemma FlatPatch(bs: seq<Block>, k: int, o: int, t: seq<byte>)
    requires 0 <= k < |bs| && 0 <= o && o + |t| <= BSIZE
    ensures k * BSIZE + o + |t| <= |Flat(bs)|
    ensures Flat(bs[k := Patch(bs[k], o, t)]) == Patch(Flat(bs), k * BSIZE + o, t)
  {
    var r, q := Flat(bs[k := Patch(bs[k], o, t)]), Patch(Flat(bs), k * BSIZE + o, t);
    forall x | 0 <= x < |r| ensures r[x] == q[x] {
      assert x == x / BSIZE * BSIZE + x % BSIZE;
    }
  }

  /** A slice of one block is a slice of the file. */
  lemma FlatSlice(bs: seq<Block>, k: int, o: int, m: int)
    requires 0 <= k < |bs| && 0 <= o && 0 <= m && o + m <= BSIZE
    ensures k * BSIZE + o + m <= |Flat(bs)|
    ensures Flat(bs)[k * BSIZE + o..k * BSIZE + o + m] == bs[k][o..o + m]
  {
  }
}
