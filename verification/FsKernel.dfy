/** fs.c: balloc, bfree, iupdate, bmap, itrunc, readi and writei, on the disk as the
    buffer cache presents it and the in-memory copies of the inodes. */
module FsKernel {
  import opened Common
  import opened FsBytes
  import opened FsOwners
  import opened FsView

  const T_DEV := 3
  const NDEV := 10

  /** The result of readi and writei; Device is the call of a driver. */
  datatype Outcome = Done(n: int) | Failed | Device(major: int) | Panic

  /** No free block is left. */
  ghost predicate Full(g: Super, disk: seq<Block>)
  {
    Formatted(g) && |disk| == g.size && forall c | 0 <= c < g.size :: Bit(g, disk, c)
  }

  lemma MetadataMarked(g: Super, disk: seq<Block>, inodes: seq<Inode>, extra: set<int>)
    requires Owned(g, disk, inodes, extra)
    ensures forall c | 0 <= c < g.data :: Bit(g, disk, c)
  {
    forall c | 0 <= c < g.data ensures Bit(g, disk, c) {
      assert Bits(g, disk)[c];
    }
  }

  lemma Place(base: int, bi: int)
    requires 0 <= base && base % BPB == 0 && 0 <= bi < BPB
    ensures (base + bi) / BPB == base / BPB && (base + bi) % BPB == bi
  {
  }

  lemma Takes(g: Super, disk: seq<Block>, b: int)
    requires Formatted(g) && |disk| == g.size && (forall c | 0 <= c < g.data :: Bit(g, disk, c))
    requires 0 <= b < g.size && !Bit(g, disk, b)
    ensures Fresh(g, disk, WithByte(g, disk, b, OrByte(ByteOf(g, disk, b), b % BPB % 8))[b := Zeros()], b)
  {
    var disk' := WithByte(g, disk, b, OrByte(ByteOf(g, disk, b), b % BPB % 8));
    SetBit(g, disk, b);
    BitsFrame(g, disk', disk'[b := Zeros()]);
  }

  lemma TakesAt(g: Super, disk: seq<Block>, base: int, bi: int)
    requires Formatted(g) && |disk| == g.size && (forall c | 0 <= c < g.data :: Bit(g, disk, c))
    requires 0 <= base && base % BPB == 0 && 0 <= bi < BPB && base + bi < g.size && !Bit(g, disk, base + bi)
    ensures var k := g.bmapstart + base / BPB;
            && 0 <= k < |disk|
            && Fresh(g, disk, disk[k := disk[k][bi / 8 := OrByte(disk[k][bi / 8], bi % 8)]][base + bi := Zeros()],
                     base + bi)
  {
    Place(base, bi);
    Takes(g, disk, base + bi);
  }

  /** What bmap does: slot bn of inode i is there, nothing else changes in any file, and
      nothing at all if it was there before. */
  ghost predicate Mapped(g: Super, disk: seq<Block>, inodes: seq<Inode>, disk': seq<Block>, inodes': seq<Inode>,
                         i: int, bn: int, addr: int)
  {
    && Sane(g, disk, inodes) && Owned(g, disk', inodes', {}) && FilesKept(disk, inodes, disk', inodes')
    && 0 <= i < |inodes| && 0 <= bn < MAXFILE
    && inodes' == inodes[i := inodes[i].(addrs := inodes'[i].addrs)]
    && Slot(disk', inodes'[i], bn) == addr != 0
    && (Slot(disk, inodes[i], bn) != 0 ==> disk' == disk && inodes' == inodes)
    && (Slot(disk, inodes[i], bn) == 0 ==> 0 <= addr < g.size && !Bit(g, disk, addr))
    && (forall k | 0 <= k < MAXFILE && k != bn :: Slot(disk', inodes'[i], k) == Slot(disk, inodes[i], k))
    && (forall j | 0 <= j < |inodes| && j != i :: Slots(disk', inodes[j]) == Slots(disk, inodes[j]))
    && (forall j | 0 <= j < |inodes| :: Dinode(g, disk', j) == Dinode(g, disk, j))
  }

  /** Slot s of inode i, empty before, now holds a block that was free. */
  ghost predicate Attaches(g: Super, disk: seq<Block>, inodes: seq<Inode>, disk': seq<Block>, inodes': seq<Inode>,
                           i: int, s: int, b: int)
  {
    && Sane(g, disk, inodes) && Owned(g, disk', inodes', {}) && FilesKept(disk, inodes, disk', inodes')
    && 0 <= i < |inodes| && 0 <= s < SLOTS && 0 < b < g.size && !Bit(g, disk, b)
    && Bits(g, disk') == Bits(g, disk)[b := true]
    && Slot(disk, inodes[i], s) == 0
    && inodes' == inodes[i := inodes[i].(addrs := inodes'[i].addrs)]
    && Slots(disk', inodes'[i]) == Slots(disk, inodes[i])[s := b]
    && (forall j | 0 <= j < |inodes| && j != i :: Slots(disk', inodes[j]) == Slots(disk, inodes[j]))
    && (forall j | 0 <= j < |inodes| :: Dinode(g, disk', j) == Dinode(g, disk, j))
  }

  lemma FreshAddr(g: Super, disk: seq<Block>, disk': seq<Block>, inodes: seq<Inode>, i: int, k: int, b: int)
    requires Owned(g, disk, inodes, {}) && Fresh(g, disk, disk', b)
    requires 0 <= i < |inodes| && 0 <= k <= NDIRECT && inodes[i].addrs[k] == 0
    ensures var p := inodes[i].(addrs := inodes[i].addrs[k := b]);
            Attaches(g, disk, inodes, disk', inodes[i := p], i, if k < NDIRECT then k else MAXFILE, b)
  {
    FreshKeeps(g, disk, disk', inodes, {}, b);
    AttachAddr(g, disk', inodes, i, k, b);
    forall j | 0 <= j < |inodes|
      ensures Dinode(g, disk', j) == Dinode(g, disk, j) && Slots(disk', inodes[j]) == Slots(disk, inodes[j])
    {
      FreshElse(g, disk, disk', inodes, j, b);
    }
  }

  lemma FreshElse(g: Super, disk: seq<Block>, disk': seq<Block>, inodes: seq<Inode>, j: int, b: int)
    requires Owned(g, disk, inodes, {}) && Fresh(g, disk, disk', b) && 0 <= j < |inodes|
    ensures Dinode(g, disk', j) == Dinode(g, disk, j) && Slots(disk', inodes[j]) == Slots(disk, inodes[j])
  {
    FreshKeeps(g, disk, disk', inodes, {}, b);
    DinodeFrame(g, disk, disk', j);
    assert AllSlots(disk', inodes)[j] == AllSlots(disk, inodes)[j];
  }

  lemma FreshEntryElse(g: Super, disk: seq<Block>, disk': seq<Block>, inodes: seq<Inode>, i: int, b: int, nb: Block)
    requires Owned(g, disk, inodes, {}) && Fresh(g, disk, disk', b)
    requires 0 <= i < |inodes| && inodes[i].addrs[NDIRECT] != 0
    ensures var a := inodes[i].addrs[NDIRECT];
            && 0 < a < |disk'| && Bits(g, disk'[a := nb]) == Bits(g, disk')
            && (forall j | 0 <= j < |inodes| && j != i :: Slots(disk'[a := nb], inodes[j]) == Slots(disk, inodes[j]))
            && (forall j | 0 <= j < |inodes| :: Dinode(g, disk'[a := nb], j) == Dinode(g, disk, j))
  {
    FreshKeeps(g, disk, disk', inodes, {}, b);
    OneBlock(g, disk', inodes, {b}, i, MAXFILE, inodes[i].addrs[NDIRECT], nb);
    forall j | 0 <= j < |inodes|
      ensures Dinode(g, disk', j) == Dinode(g, disk, j) && Slots(disk', inodes[j]) == Slots(disk, inodes[j])
    {
      FreshElse(g, disk, disk', inodes, j, b);
    }
  }

  lemma FilesKeptOn(disk: seq<Block>, disk': seq<Block>, disk'': seq<Block>, inodes: seq<Inode>)
    requires FilesKept(disk, inodes, disk', inodes) && FilesKept(disk', inodes, disk'', inodes)
    ensures FilesKept(disk, inodes, disk'', inodes)
  {
  }

  /** What a fresh block leaves of the inode it is for. */
  lemma FreshReady(g: Super, disk: seq<Block>, disk': seq<Block>, inodes: seq<Inode>, i: int, bn: int, b: int)
    requires Owned(g, disk, inodes, {}) && Fresh(g, disk, disk', b)
    requires 0 <= i < |inodes| && NDIRECT <= bn < MAXFILE && Slot(disk, inodes[i], bn) == 0
    ensures Owned(g, disk', inodes, {b}) && disk'[b] == Zeros() && g.data <= b && FilesKept(disk, inodes, disk', inodes)
    ensures Slots(disk', inodes[i]) == Slots(disk, inodes[i]) && Slot(disk', inodes[i], bn) == 0
  {
    FreshKeeps(g, disk, disk', inodes, {}, b);
    FreshElse(g, disk, disk', inodes, i, b);
    assert {} + {b} == {b};
    assert Slots(disk', inodes[i])[bn] == Slots(disk, inodes[i])[bn];
  }

  lemma FreshEntry(g: Super, disk: seq<Block>, disk': seq<Block>, inodes: seq<Inode>, i: int, bn: int, b: int)
    requires Owned(g, disk, inodes, {}) && Fresh(g, disk, disk', b)
    requires 0 <= i < |inodes| && NDIRECT <= bn < MAXFILE && inodes[i].addrs[NDIRECT] != 0
             && Slot(disk, inodes[i], bn) == 0
    ensures var a := inodes[i].addrs[NDIRECT];
            && 0 < a < |disk'|
            && Attaches(g, disk, inodes, disk'[a := PutEntry(disk'[a], bn - NDIRECT, b)], inodes, i, bn, b)
  {
    var a := inodes[i].addrs[NDIRECT];
    FreshReady(g, disk, disk', inodes, i, bn, b);
    AttachEntry(g, disk', inodes, i, bn, b);
    FreshEntryElse(g, disk, disk', inodes, i, b, PutEntry(disk'[a], bn - NDIRECT, b));
    FilesKeptOn(disk, disk', disk'[a := PutEntry(disk'[a], bn - NDIRECT, b)], inodes);
  }

  lemma AttachedMapped(g: Super, disk: seq<Block>, inodes: seq<Inode>, disk': seq<Block>, inodes': seq<Inode>,
                       i: int, bn: int, b: int)
    requires Attaches(g, disk, inodes, disk', inodes', i, bn, b) && bn < MAXFILE
    ensures Mapped(g, disk, inodes, disk', inodes', i, bn, b)
  {
    forall k | 0 <= k < MAXFILE
      ensures Slot(disk', inodes'[i], k) == if k == bn then b else Slot(disk, inodes[i], k)
    {
      assert Slots(disk', inodes'[i])[k] == Slot(disk', inodes'[i], k);
      assert Slots(disk, inodes[i])[k] == Slot(disk, inodes[i], k);
    }
  }

  lemma AttachedThenMapped(g: Super, disk: seq<Block>, inodes: seq<Inode>, disk': seq<Block>, inodes': seq<Inode>,
                           disk'': seq<Block>, i: int, bn: int, a: int, b: int)
    requires Attaches(g, disk, inodes, disk', inodes', i, MAXFILE, a)
             && Mapped(g, disk', inodes', disk'', inodes', i, bn, b)
    requires NDIRECT <= bn
    ensures Mapped(g, disk, inodes, disk'', inodes', i, bn, b)
  {
    forall k | 0 <= k < MAXFILE ensures Slot(disk', inodes'[i], k) == Slot(disk, inodes[i], k) {
      assert Slots(disk', inodes'[i])[k] == Slot(disk', inodes'[i], k);
      assert Slots(disk, inodes[i])[k] == Slot(disk, inodes[i], k);
    }
    if 0 <= b < g.size && Bit(g, disk, b) {
      assert Bits(g, disk')[b];
    }
  }

  lemma UpdateKeeps(g: Super, disk: seq<Block>, inodes: seq<Inode>, i: int)
    requires Owned(g, disk, inodes, {}) && 0 <= i < |inodes|
    ensures var disk' := WithInode(g, disk, i, inodes[i]);
            && Owned(g, disk', inodes, {}) && FilesKept(disk, inodes, disk', inodes)
            && AllSlots(disk', inodes) == AllSlots(disk, inodes) && Bits(g, disk') == Bits(g, disk)
            && forall j | 0 <= j < |inodes| :: Dinode(g, disk', j) == if j == i then inodes[i] else Dinode(g, disk, j)
  {
    var disk' := WithInode(g, disk, i, inodes[i]);
    BitsFrame(g, disk, disk');
    var sl := AllSlots(disk, inodes);
    forall j, k | 0 <= j < |inodes| && 0 <= k < SLOTS ensures Blk(disk', sl[j][k]) == Blk(disk, sl[j][k]) {
    }
    Quiet(disk, disk', inodes);
    forall j | 0 <= j < |inodes| ensures Dinode(g, disk', j) == if j == i then inodes[i] else Dinode(g, disk, j) {
      InodeRoundTrip(g, disk, i, inodes[i], j);
    }
  }

  // ------------------------------------------------------ reading and writing

  /** c with t written at off. */
  function Spliced(c: seq<byte>, off: int, t: seq<byte>): seq<byte>
    requires 0 <= off <= |c|
  {
    c[..off] + t + if off + |t| < |c| then c[off + |t|..] else []
  }

  /** The bytes of t stand at off, the others as they were. */
  lemma SplicedAt(c: seq<byte>, off: int, t: seq<byte>, x: int)
    requires 0 <= off <= |c| && 0 <= x < Max(|c|, off + |t|)
    ensures |Spliced(c, off, t)| == Max(|c|, off + |t|)
    ensures Spliced(c, off, t)[x] == if off <= x < off + |t| then t[x - off] else c[x]
    ensures Spliced(c, off, t)[off..off + |t|] == t
  {
  }

  lemma PatchPatch(s: seq<byte>, o: int, t: seq<byte>, u: seq<byte>)
    requires 0 <= o && o + |t| + |u| <= |s|
    ensures Patch(Patch(s, o, t), o + |t|, u) == Patch(s, o, t + u)
  {
    var r, q := Patch(Patch(s, o, t), o + |t|, u), Patch(s, o, t + u);
    forall x | 0 <= x < |s| ensures r[x] == q[x] {
    }
  }

  /** The state after the bytes t have been written to file i at off, before its size is
      brought up to date. */
  ghost predicate Writing(g: Super, disk: seq<Block>, inodes: seq<Inode>, disk': seq<Block>, inodes': seq<Inode>,
                          i: int, off: int, t: seq<byte>)
  {
    && Sane(g, disk, inodes) && Owned(g, disk', inodes', {})
    && 0 <= i < |inodes| && 0 <= off && off + |t| <= MAXFILE * BSIZE
    && inodes' == inodes[i := inodes[i].(addrs := inodes'[i].addrs)]
    && Flat(Blocks(disk', inodes'[i])) == Patch(Flat(Blocks(disk, inodes[i])), off, t)
    && (forall j | 0 <= j < |inodes| && j != i ::
          Slots(disk', inodes[j]) == Slots(disk, inodes[j]) && Blocks(disk', inodes[j]) == Blocks(disk, inodes[j]))
    && (forall j | 0 <= j < |inodes| :: Dinode(g, disk', j) == Dinode(g, disk, j))
    && (forall k | 0 <= k < MAXFILE && (k * BSIZE < inodes[i].size || k * BSIZE < off + |t|) ::
         Slot(disk', inodes'[i], k) != 0)
    && (off + |t| <= inodes[i].size ==> inodes' == inodes)
  }

  /** The same, with the next block mapped at addr. */
  ghost predicate Readied(g: Super, disk: seq<Block>, inodes: seq<Inode>, disk': seq<Block>, inodes': seq<Inode>,
                          i: int, off: int, t: seq<byte>, addr: int)
  {
    && Sane(g, disk, inodes) && Owned(g, disk', inodes', {})
    && 0 <= i < |inodes| && 0 <= off && off + |t| < MAXFILE * BSIZE
    && inodes' == inodes[i := inodes[i].(addrs := inodes'[i].addrs)]
    && Flat(Blocks(disk', inodes'[i])) == Patch(Flat(Blocks(disk, inodes[i])), off, t)
    && (forall j | 0 <= j < |inodes| && j != i ::
          Slots(disk', inodes[j]) == Slots(disk, inodes[j]) && Blocks(disk', inodes[j]) == Blocks(disk, inodes[j]))
    && (forall j | 0 <= j < |inodes| :: Dinode(g, disk', j) == Dinode(g, disk, j))
    && (forall k | 0 <= k < MAXFILE && (k * BSIZE < inodes[i].size || k * BSIZE <= off + |t|) ::
         Slot(disk', inodes'[i], k) != 0)
    && (off + |t| < inodes[i].size ==> inodes' == inodes)
    && Slot(disk', inodes'[i], (off + |t|) / BSIZE) == addr != 0
  }

  lemma WritingMapped(g: Super, disk: seq<Block>, inodes: seq<Inode>, disk1: seq<Block>, inodes1: seq<Inode>,
                      disk2: seq<Block>, inodes2: seq<Inode>, i: int, off: int, t: seq<byte>, addr: int)
    requires Writing(g, disk, inodes, disk1, inodes1, i, off, t) && off + |t| < MAXFILE * BSIZE
    requires Mapped(g, disk1, inodes1, disk2, inodes2, i, (off + |t|) / BSIZE, addr)
    ensures Readied(g, disk, inodes, disk2, inodes2, i, off, t, addr)
  {
    var bn := (off + |t|) / BSIZE;
    assert off + |t| < inodes[i].size ==> bn * BSIZE < inodes[i].size;
    forall k | 0 <= k < MAXFILE && (k * BSIZE < inodes[i].size || k * BSIZE <= off + |t|)
      ensures Slot(disk2, inodes2[i], k) != 0
    {
      assert k * BSIZE >= off + |t| && k * BSIZE <= off + |t| ==> k == bn;
      if k != bn {
        assert Slot(disk2, inodes2[i], k) == Slot(disk1, inodes1[i], k);
      }
    }
    forall j | 0 <= j < |inodes| && j != i
      ensures Slots(disk2, inodes[j]) == Slots(disk, inodes[j]) && Blocks(disk2, inodes[j]) == Blocks(disk, inodes[j])
    {
      assert inodes1[j] == inodes[j] && inodes2[j] == inodes[j];
    }
  }

  lemma FlatWritten(disk: seq<Block>, disk': seq<Block>, p: Inode, x: int, u: seq<byte>, addr: int)
    requires |p.addrs| == NDIRECT + 1 && 0 <= x && x / BSIZE < MAXFILE && |u| <= BSIZE - x % BSIZE
    requires 0 < addr < |disk| && Slot(disk, p, x / BSIZE) == addr
    requires Blocks(disk', p) == Blocks(disk, p)[x / BSIZE := Patch(disk[addr], x % BSIZE, u)]
    ensures x + |u| <= |Flat(Blocks(disk, p))|
    ensures Flat(Blocks(disk', p)) == Patch(Flat(Blocks(disk, p)), x, u)
  {
    var bs := Blocks(disk, p);
    assert bs[x / BSIZE] == disk[addr];
    FlatPatch(bs, x / BSIZE, x % BSIZE, u);
  }

  /** Bytes u written at x, within one mapped block. */
  lemma BlockWritten(g: Super, disk: seq<Block>, inodes: seq<Inode>, i: int, x: int, u: seq<byte>, addr: int)
    requires Owned(g, disk, inodes, {}) && 0 <= i < |inodes| && 0 <= x && x + |u| <= MAXFILE * BSIZE && u != []
    requires |u| <= BSIZE - x % BSIZE && Slot(disk, inodes[i], x / BSIZE) == addr != 0
    ensures 0 < addr < |disk|
    ensures var disk' := disk[addr := Patch(disk[addr], x % BSIZE, u)];
            && Owned(g, disk', inodes, {})
            && Flat(Blocks(disk', inodes[i])) == Patch(Flat(Blocks(disk, inodes[i])), x, u)
            && (forall j | 0 <= j < |inodes| ::
                 Dinode(g, disk', j) == Dinode(g, disk, j) && Slots(disk', inodes[j]) == Slots(disk, inodes[j]))
            && (forall j | 0 <= j < |inodes| && j != i :: Blocks(disk', inodes[j]) == Blocks(disk, inodes[j]))
  {
    var bn, o := x / BSIZE, x % BSIZE;
    assert AllSlots(disk, inodes)[i][bn] == addr;
    var nb := Patch(disk[addr], o, u);
    FileWrite(g, disk, inodes, i, bn, nb);
    OneBlock(g, disk, inodes, {}, i, bn, addr, nb);
    var disk' := disk[addr := nb];
    FlatWritten(disk, disk', inodes[i], x, u, addr);
    forall j | 0 <= j < |inodes| ensures Slots(disk', inodes[j]) == Slots(disk, inodes[j]) {
      assert AllSlots(disk', inodes)[j] == AllSlots(disk, inodes)[j];
    }
  }

  lemma ReachKept(disk: seq<Block>, disk': seq<Block>, p: Inode, size: int, x: int, m: int)
    requires |p.addrs| == NDIRECT + 1 && Slots(disk', p) == Slots(disk, p) && 0 <= x && 0 < m <= BSIZE - x % BSIZE
    requires forall k | 0 <= k < MAXFILE && (k * BSIZE < size || k * BSIZE <= x) :: Slot(disk, p, k) != 0
    ensures forall k | 0 <= k < MAXFILE && (k * BSIZE < size || k * BSIZE < x + m) :: Slot(disk', p, k) != 0
  {
    forall k | 0 <= k < MAXFILE && (k * BSIZE < size || k * BSIZE < x + m) ensures Slot(disk', p, k) != 0 {
      assert k * BSIZE < x + m ==> k * BSIZE <= x;
      assert Slots(disk', p)[k] == Slots(disk, p)[k];
    }
  }

  lemma ReadiedWritten(g: Super, disk: seq<Block>, inodes: seq<Inode>, disk': seq<Block>, inodes': seq<Inode>,
                       i: int, off: int, t: seq<byte>, u: seq<byte>, addr: int)
    requires Readied(g, disk, inodes, disk', inodes', i, off, t, addr)
    requires u != [] && |u| <= BSIZE - (off + |t|) % BSIZE && off + |t| + |u| <= MAXFILE * BSIZE
    ensures 0 < addr < |disk'|
    ensures Writing(g, disk, inodes, disk'[addr := Patch(disk'[addr], (off + |t|) % BSIZE, u)], inodes', i, off, t + u)
  {
    var x := off + |t|;
    BlockWritten(g, disk', inodes', i, x, u, addr);
    PatchPatch(Flat(Blocks(disk, inodes[i])), off, t, u);
    var disk'' := disk'[addr := Patch(disk'[addr], x % BSIZE, u)];
    ReachKept(disk', disk'', inodes'[i], inodes[i].size, x, |u|);
    assert Flat(Blocks(disk'', inodes'[i])) == Patch(Flat(Blocks(disk, inodes[i])), off, t + u);
    forall j | 0 <= j < |inodes| && j != i
      ensures Slots(disk'', inodes[j]) == Slots(disk, inodes[j]) && Blocks(disk'', inodes[j]) == Blocks(disk, inodes[j])
    {
      assert inodes'[j] == inodes[j];
    }
  }

  /** What holds between operations: exact ownership, no holes, and every in-memory inode
      equal to the one on disk. */
  ghost predicate Good(g: Super, disk: seq<Block>, inodes: seq<Inode>)
  {
    && Owned(g, disk, inodes, {}) && AllSolid(disk, inodes)
    && forall i | 0 <= i < |inodes| :: Synced(g, disk, inodes, i)
  }

  /** Between Good states, file i has t spliced in at off and no other file has changed. */
  ghost predicate Wrote(disk: seq<Block>, inodes: seq<Inode>, disk': seq<Block>, inodes': seq<Inode>, i: int,
                        off: int, t: seq<byte>)
  {
    && AllSolid(disk, inodes) && AllSolid(disk', inodes') && |inodes'| == |inodes| && 0 <= i < |inodes|
    && 0 <= off <= inodes[i].size
    && Content(disk', inodes'[i]) == Spliced(Content(disk, inodes[i]), off, t)
    && inodes'[i] == inodes[i].(addrs := inodes'[i].addrs, size := inodes'[i].size)
    && forall j | 0 <= j < |inodes| && j != i ::
         inodes'[j] == inodes[j] && Content(disk', inodes[j]) == Content(disk, inodes[j])
  }

  lemma WritingStart(g: Super, disk: seq<Block>, inodes: seq<Inode>, i: int, off: int)
    requires Good(g, disk, inodes) && 0 <= i < |inodes| && 0 <= off <= inodes[i].size
    ensures Writing(g, disk, inodes, disk, inodes, i, off, [])
  {
    assert Solid(disk, inodes[i]);
    var all := Flat(Blocks(disk, inodes[i]));
    assert Patch(all, off, []) == all;
  }

  lemma SolidFrame(disk: seq<Block>, disk': seq<Block>, p: Inode)
    requires Solid(disk, p) && Slots(disk', p) == Slots(disk, p)
    ensures Solid(disk', p)
  {
    forall k | 0 <= k < MAXFILE && k * BSIZE < p.size ensures Slot(disk', p, k) != 0 {
      assert Slots(disk', p)[k] == Slots(disk, p)[k];
    }
  }

  lemma SplicedIs(all: seq<byte>, size: int, off: int, t: seq<byte>)
    requires 0 <= off <= size <= |all| && off + |t| <= |all|
    ensures Patch(all, off, t)[..if size < off + |t| then off + |t| else size] == Spliced(all[..size], off, t)
  {
    var n := if size < off + |t| then off + |t| else size;
    var r, q := Patch(all, off, t)[..n], Spliced(all[..size], off, t);
    assert |r| == |q|;
    forall x | 0 <= x < n ensures r[x] == q[x] {
    }
  }

  lemma SizeOnly(g: Super, disk: seq<Block>, inodes: seq<Inode>, i: int, n: int)
    requires Owned(g, disk, inodes, {}) && 0 <= i < |inodes| && 0 <= n < WORDS
    ensures var p := inodes[i].(size := n);
            && Slots(disk, p) == Slots(disk, inodes[i]) && Blocks(disk, p) == Blocks(disk, inodes[i])
            && Owned(g, disk, inodes[i := p], {})
  {
    var p := inodes[i].(size := n);
    assert Slots(disk, p) == Slots(disk, inodes[i]);
    assert AllSlots(disk, inodes[i := p]) == AllSlots(disk, inodes);
  }

  lemma WrittenFile(g: Super, disk: seq<Block>, inodes: seq<Inode>, disk': seq<Block>, inodes': seq<Inode>,
                    i: int, off: int, t: seq<byte>, p: Inode)
    requires Writing(g, disk, inodes, disk', inodes', i, off, t) && Solid(disk, inodes[i]) && off <= inodes[i].size
    requires p == inodes'[i].(size := if inodes[i].size < off + |t| then off + |t| else inodes[i].size)
    ensures Owned(g, disk', inodes'[i := p], {}) && Solid(disk', p)
    ensures Content(disk', p) == Spliced(Content(disk, inodes[i]), off, t)
  {
    SizeOnly(g, disk', inodes', i, p.size);
    SplicedIs(Flat(Blocks(disk, inodes[i])), inodes[i].size, off, t);
    forall k | 0 <= k < MAXFILE && k * BSIZE < p.size ensures Slot(disk', p, k) != 0 {
      assert Slots(disk', p)[k] == Slots(disk', inodes'[i])[k];
    }
  }

  lemma WrittenElse(g: Super, disk: seq<Block>, inodes: seq<Inode>, disk': seq<Block>, inodes': seq<Inode>,
                    i: int, off: int, t: seq<byte>, j: int)
    requires Good(g, disk, inodes) && Writing(g, disk, inodes, disk', inodes', i, off, t) && 0 <= j < |inodes|
    ensures Dinode(g, disk', j) == inodes[j]
    ensures j != i ==> inodes'[j] == inodes[j] && Solid(disk, inodes[j]) && Solid(disk', inodes[j])
                       && Content(disk', inodes[j]) == Content(disk, inodes[j])
  {
    assert Solid(disk, inodes[j]) && Synced(g, disk, inodes, j);
    if j != i {
      SolidFrame(disk, disk', inodes[j]);
    }
  }

  /** The end of writei, the size being what it should be: only inode i may still differ
      from its copy on disk. */
  lemma WritingEnd(g: Super, disk: seq<Block>, inodes: seq<Inode>, disk': seq<Block>, inodes': seq<Inode>,
                   i: int, off: int, t: seq<byte>, p: Inode)
    requires Good(g, disk, inodes) && Writing(g, disk, inodes, disk', inodes', i, off, t) && off <= inodes[i].size
    requires p == inodes'[i].(size := if inodes[i].size < off + |t| then off + |t| else inodes[i].size)
    ensures Owned(g, disk', inodes'[i := p], {}) && Wrote(disk, inodes, disk', inodes'[i := p], i, off, t)
    ensures forall j | 0 <= j < |inodes| :: Dinode(g, disk', j) == inodes[j]
  {
    assert Solid(disk, inodes[i]);
    WrittenFile(g, disk, inodes, disk', inodes', i, off, t, p);
    forall j | 0 <= j < |inodes|
      ensures Dinode(g, disk', j) == inodes[j]
      ensures j != i ==> inodes'[j] == inodes[j] && Solid(disk', inodes[j])
                         && Content(disk', inodes[j]) == Content(disk, inodes[j])
    {
      WrittenElse(g, disk, inodes, disk', inodes', i, off, t, j);
    }
  }

  lemma UpdatedGood(g: Super, disk0: seq<Block>, inodes0: seq<Inode>, disk: seq<Block>, disk': seq<Block>,
                    inodes: seq<Inode>, i: int, off: int, t: seq<byte>)
    requires Owned(g, disk', inodes, {}) && FilesKept(disk, inodes, disk', inodes) && |disk| == |disk'|
    requires AllSlots(disk', inodes) == AllSlots(disk, inodes) && Wrote(disk0, inodes0, disk, inodes, i, off, t)
    requires forall j | 0 <= j < |inodes| :: Dinode(g, disk', j) == inodes[j]
    ensures Good(g, disk', inodes) && Wrote(disk0, inodes0, disk', inodes, i, off, t)
  {
    forall j | 0 <= j < |inodes|
      ensures Solid(disk', inodes[j]) && Content(disk', inodes[j]) == Content(disk, inodes[j])
    {
      assert Solid(disk, inodes[j]);
      assert AllSlots(disk', inodes)[j] == AllSlots(disk, inodes)[j];
      SolidFrame(disk, disk', inodes[j]);
    }
  }

  function Bare(p: Inode): Inode
  {
    p.(addrs := seq(NDIRECT + 1, _ => 0))
  }

  /** A write that ends within the file needs no iupdate. */
  lemma WriteKept(g: Super, disk: seq<Block>, inodes: seq<Inode>, disk': seq<Block>, inodes': seq<Inode>, i: int,
                  off: int, t: seq<byte>)
    requires Good(g, disk, inodes) && Writing(g, disk, inodes, disk', inodes', i, off, t)
    requires off <= inodes[i].size && off + |t| <= inodes[i].size
    ensures Good(g, disk', inodes') && Wrote(disk, inodes, disk', inodes', i, off, t)
  {
    WritingEnd(g, disk, inodes, disk', inodes', i, off, t, inodes[i]);
    assert inodes' == inodes && inodes'[i := inodes[i]] == inodes;
  }

  /** One that ends behind it leaves only inode i to be written. */
  lemma WriteGrown(g: Super, disk: seq<Block>, inodes: seq<Inode>, disk': seq<Block>, inodes': seq<Inode>, i: int,
                   off: int, t: seq<byte>)
    requires Good(g, disk, inodes) && Writing(g, disk, inodes, disk', inodes', i, off, t)
    requires off <= inodes[i].size < off + |t|
    ensures var p := inodes'[i].(size := off + |t|);
            && Owned(g, disk', inodes'[i := p], {}) && Wrote(disk, inodes, disk', inodes'[i := p], i, off, t)
            && forall j | 0 <= j < |inodes| && j != i :: Dinode(g, disk', j) == inodes'[i := p][j]
  {
    WritingEnd(g, disk, inodes, disk', inodes', i, off, t, inodes'[i].(size := off + |t|));
  }

  /** A disk on which mkfs has marked the metadata and made no file yet is a good start. */
  lemma EmptyGood(g: Super, disk: seq<Block>, inodes: seq<Inode>)
    requires Formatted(g) && |disk| == g.size && |inodes| == g.ninodes && AllStorable(inodes)
    requires forall i | 0 <= i < |inodes| :: Dinode(g, disk, i) == inodes[i] == Bare(inodes[i]) && inodes[i].size == 0
    requires forall b | 0 <= b < g.size :: Bit(g, disk, b) <==> b < g.data
    ensures Good(g, disk, inodes)
  {
    var sl := AllSlots(disk, inodes);
    forall i, k | 0 <= i < |inodes| && 0 <= k < SLOTS ensures sl[i][k] == 0 {
      assert inodes[i].addrs == Bare(inodes[i]).addrs;
    }
  }

  // ---------------------------------------------------------- truncation

  /** Freeing the blocks of inode i in slot order, the first t slots done. */
  ghost predicate Truncating(g: Super, disk: seq<Block>, inodes: seq<Inode>, disk': seq<Block>, i: int, t: int)
  {
    && Owned(g, disk, inodes, {}) && 0 <= i < |inodes| && 0 <= t <= SLOTS
    && var r := Slots(disk, inodes[i]);
    && Owned(g, disk', inodes[i := Bare(inodes[i])], Named(r, t))
    && (forall c | g.data <= c < g.size || 0 <= c < g.bmapstart :: disk'[c] == disk[c])
    && (forall c | 0 <= c < g.size :: Bit(g, disk', c) <==> Bit(g, disk, c) && c !in Named(r, 0) - Named(r, t))
  }

  lemma TruncStart(g: Super, disk: seq<Block>, inodes: seq<Inode>, i: int)
    requires Owned(g, disk, inodes, {}) && 0 <= i < |inodes|
    ensures Truncating(g, disk, inodes, disk, i, 0)
  {
    var p, sl := Bare(inodes[i]), AllSlots(disk, inodes);
    Detached(Bits(g, disk), sl, g.data, i, Slots(disk, p));
    assert AllSlots(disk, inodes[i := p]) == sl[i := Slots(disk, p)];
  }

  lemma NamedStep(r: seq<int>, t: int)
    requires 0 <= t < |r| && forall k, l | 0 <= k < l < |r| && r[k] != 0 :: r[k] != r[l]
    ensures r[t] != 0 ==> r[t] in Named(r, t) && Named(r, t + 1) == Named(r, t) - {r[t]}
    ensures r[t] == 0 ==> Named(r, t + 1) == Named(r, t)
  {
    assert r[t] != 0 ==> Named(r, t) == Named(r, t + 1) + {r[t]};
  }

  lemma RowSingle(g: Super, disk: seq<Block>, inodes: seq<Inode>, i: int)
    requires Owned(g, disk, inodes, {}) && 0 <= i < |inodes|
    ensures var r := Slots(disk, inodes[i]);
            && (forall k | 0 <= k < |r| :: r[k] == 0 || g.data <= r[k] < g.size)
            && forall k, l | 0 <= k < l < |r| && r[k] != 0 :: r[k] != r[l]
  {
    var r, sl := Slots(disk, inodes[i]), AllSlots(disk, inodes);
    assert sl[i] == r;
  }

  /** A block in transit is marked, so that freeing it does not panic. */
  lemma TruncMarked(g: Super, disk: seq<Block>, inodes: seq<Inode>, disk': seq<Block>, i: int, t: int)
    requires Truncating(g, disk, inodes, disk', i, t) && t < SLOTS && Slots(disk, inodes[i])[t] != 0
    ensures var b := Slots(disk, inodes[i])[t]; g.data <= b < g.size && Bit(g, disk', b)
  {
    RowSingle(g, disk, inodes, i);
    var b := Slots(disk, inodes[i])[t];
    NamedStep(Slots(disk, inodes[i]), t);
    assert Bits(g, disk')[b];
  }

  lemma TruncStep(g: Super, disk: seq<Block>, inodes: seq<Inode>, disk1: seq<Block>, disk2: seq<Block>, i: int, t: int)
    requires Truncating(g, disk, inodes, disk1, i, t) && t < SLOTS
    requires var b := Slots(disk, inodes[i])[t]; if b == 0 then disk2 == disk1 else Cleared(g, disk1, disk2, b)
    ensures Truncating(g, disk, inodes, disk2, i, t + 1)
  {
    var r := Slots(disk, inodes[i]);
    RowSingle(g, disk, inodes, i);
    NamedStep(r, t);
    var b := r[t];
    if b != 0 {
      ClearedKeeps(g, disk1, disk2, inodes[i := Bare(inodes[i])], Named(r, t), b);
      forall c | 0 <= c < g.size ensures Bit(g, disk2, c) <==> c != b && Bit(g, disk1, c) {
        assert Bits(g, disk2)[c] == Bits(g, disk1)[b := false][c];
      }
      assert b in Named(r, 0);
    }
  }

  lemma TruncSkip(g: Super, disk: seq<Block>, inodes: seq<Inode>, disk': seq<Block>, i: int)
    requires Truncating(g, disk, inodes, disk', i, NDIRECT) && inodes[i].addrs[NDIRECT] == 0
    ensures Truncating(g, disk, inodes, disk', i, SLOTS)
  {
    var r := Slots(disk, inodes[i]);
    assert Named(r, NDIRECT) == {} == Named(r, SLOTS);
  }

  lemma TruncElse(g: Super, disk: seq<Block>, inodes: seq<Inode>, disk': seq<Block>, i: int, j: int)
    requires Truncating(g, disk, inodes, disk', i, SLOTS) && 0 <= j < |inodes|
    ensures Dinode(g, disk', j) == Dinode(g, disk, j)
    ensures Slots(disk', inodes[j]) == Slots(disk, inodes[j]) && Blocks(disk', inodes[j]) == Blocks(disk, inodes[j])
  {
    DinodeFrame(g, disk, disk', j);
    RowSingle(g, disk, inodes, j);
    var p, r := inodes[j], Slots(disk, inodes[j]);
    assert r[MAXFILE] == p.addrs[NDIRECT];
    SlotsFrame(disk, disk', p);
    forall k | 0 <= k < MAXFILE ensures Blocks(disk', p)[k] == Blocks(disk, p)[k] {
      assert r[k] == Slot(disk, p, k) == Slots(disk', p)[k] == Slot(disk', p, k);
    }
  }

  /** What itrunc leaves: the file is empty and its blocks, exactly, are free. */
  ghost predicate Truncated(g: Super, disk: seq<Block>, inodes: seq<Inode>, disk': seq<Block>, inodes': seq<Inode>,
                            i: int)
  {
    && Good(g, disk, inodes) && Good(g, disk', inodes') && 0 <= i < |inodes|
    && inodes' == inodes[i := Bare(inodes[i]).(size := 0)]
    && (forall c | 0 <= c < g.size :: Bit(g, disk', c) <==> Bit(g, disk, c) && (c == 0 || c !in Slots(disk, inodes[i])))
    && (forall j | 0 <= j < |inodes| && j != i :: Content(disk', inodes[j]) == Content(disk, inodes[j]))
  }

  lemma TruncOwned(g: Super, disk: seq<Block>, inodes: seq<Inode>, disk': seq<Block>, inodes': seq<Inode>, i: int)
    requires Truncating(g, disk, inodes, disk', i, SLOTS) && inodes' == inodes[i := Bare(inodes[i]).(size := 0)]
    ensures Owned(g, disk', inodes', {})
  {
    assert Named(Slots(disk, inodes[i]), SLOTS) == {};
    SizeOnly(g, disk', inodes[i := Bare(inodes[i])], i, 0);
    assert inodes' == inodes[i := Bare(inodes[i])][i := Bare(inodes[i]).(size := 0)];
  }

  lemma TruncBits(g: Super, disk: seq<Block>, inodes: seq<Inode>, disk': seq<Block>, i: int, c: int)
    requires Truncating(g, disk, inodes, disk', i, SLOTS) && 0 <= c < g.size
    ensures Bit(g, disk', c) <==> Bit(g, disk, c) && (c == 0 || c !in Slots(disk, inodes[i]))
  {
    var r := Slots(disk, inodes[i]);
    RowSingle(g, disk, inodes, i);
    assert Named(r, SLOTS) == {};
    MetadataMarked(g, disk', inodes[i := Bare(inodes[i])], {});
    assert c in r && c != 0 ==> c in Named(r, 0);
    assert c in Named(r, 0) ==> c in r;
  }

  lemma TruncEnd(g: Super, disk: seq<Block>, inodes: seq<Inode>, disk1: seq<Block>, disk2: seq<Block>,
                 inodes': seq<Inode>, i: int)
    requires Good(g, disk, inodes) && Truncating(g, disk, inodes, disk1, i, SLOTS)
             && inodes' == inodes[i := Bare(inodes[i]).(size := 0)]
    requires Owned(g, disk2, inodes', {}) && FilesKept(disk1, inodes', disk2, inodes')
    requires AllSlots(disk2, inodes') == AllSlots(disk1, inodes') && Bits(g, disk2) == Bits(g, disk1)
    requires forall j | 0 <= j < |inodes| :: Dinode(g, disk2, j) == if j == i then inodes'[i] else Dinode(g, disk1, j)
    ensures Truncated(g, disk, inodes, disk2, inodes', i)
  {
    forall j | 0 <= j < |inodes|
      ensures Synced(g, disk2, inodes', j) && Solid(disk2, inodes'[j])
      ensures j != i ==> Solid(disk, inodes[j]) && Content(disk2, inodes[j]) == Content(disk, inodes[j])
    {
      assert Solid(disk, inodes[j]) && Synced(g, disk, inodes, j);
      TruncElse(g, disk, inodes, disk1, i, j);
      assert AllSlots(disk2, inodes')[j] == AllSlots(disk1, inodes')[j];
      if j != i {
        SolidFrame(disk, disk2, inodes[j]);
      }
    }
    forall c | 0 <= c < g.size
      ensures Bit(g, disk2, c) <==> Bit(g, disk, c) && (c == 0 || c !in Slots(disk, inodes[i]))
    {
      assert Bits(g, disk2)[c] == Bits(g, disk1)[c];
      TruncBits(g, disk, inodes, disk1, i, c);
    }
  }

  class FileSystem {
    const g: Super
    var disk: seq<Block>
    var inodes: seq<Inode>

    ghost predicate Valid()
      reads this
    {
      Good(g, disk, inodes)
    }

    /** Mounts a disk: the inodes are what is stored on it. */
    constructor (g: Super, disk: seq<Block>)
      requires Formatted(g) && |disk| == g.size
      requires Good(g, disk, seq(g.ninodes, i requires 0 <= i < g.ninodes => Dinode(g, disk, i)))
      ensures Valid() && this.g == g && this.disk == disk
    {
      this.g := g;
      this.disk := disk;
      inodes := seq(g.ninodes, i requires 0 <= i < g.ninodes => Dinode(g, disk, i));
    }

    /** Takes the first free block; -1 is the panic when there is none. */
    method Balloc() returns (b: int)
      requires Formatted(g) && |disk| == g.size && forall c | 0 <= c < g.data :: Bit(g, disk, c)
      modifies this`disk
      ensures b == -1 ==> disk == old(disk) && Full(g, disk)
      ensures b != -1 ==> Fresh(g, old(disk), disk, b) && forall c | 0 <= c < b :: Bit(g, old(disk), c)
    {
      var base := 0;
      while base < g.size
        invariant 0 <= base && base % BPB == 0 && disk == old(disk)
        invariant forall c | 0 <= c < base && c < g.size :: Bit(g, disk, c)
      {
        var bi := ScanBlock(base);
        if bi != BPB {
          TakeBlock(base, bi);
          return base + bi;
        }
        base := base + BPB;
      }
      b := -1;
    }

    /** Marks block base + bi and zeroes it. */
    method TakeBlock(base: int, bi: int)
      requires Formatted(g) && |disk| == g.size && forall c | 0 <= c < g.data :: Bit(g, disk, c)
      requires 0 <= base && base % BPB == 0 && 0 <= bi < BPB && base + bi < g.size && !Bit(g, disk, base + bi)
      modifies this`disk
      ensures Fresh(g, old(disk), disk, base + bi)
    {
      TakesAt(g, disk, base, bi);
      var k := g.bmapstart + base / BPB;
      disk := disk[k := disk[k][bi / 8 := OrByte(disk[k][bi / 8], bi % 8)]];
      disk := disk[base + bi := Zeros()];
    }

    /** balloc's inner loop: the first clear bit of the map block for base, or BPB. */
    method ScanBlock(base: int) returns (bi: int)
      requires Formatted(g) && |disk| == g.size && 0 <= base < g.size && base % BPB == 0
      ensures 0 <= bi <= BPB && forall c | base <= c < base + bi && c < g.size :: Bit(g, disk, c)
      ensures bi < BPB ==> base + bi < g.size && !Bit(g, disk, base + bi)
    {
      var k := g.bmapstart + base / BPB;
      bi := 0;
      while bi < BPB && base + bi < g.size
        invariant 0 <= bi <= BPB
        invariant forall c | base <= c < base + bi && c < g.size :: Bit(g, disk, c)
      {
        Place(base, bi);
        if !Test(disk[k][bi / 8], bi % 8) {
          return;
        }
        bi := bi + 1;
      }
      bi := BPB;
    }

    /** Frees block b; !ok is the panic "freeing free block". */
    method Bfree(b: int) returns (ok: bool)
      requires Formatted(g) && |disk| == g.size && 0 <= b < g.size
      modifies this`disk
      ensures ok <==> Bit(g, old(disk), b)
      ensures if ok then Cleared(g, old(disk), disk, b) else disk == old(disk)
    {
      var k, bi := g.bmapstart + b / BPB, b % BPB;
      if !Test(disk[k][bi / 8], bi % 8) {
        return false;
      }
      ClearBit(g, disk, b);
      disk := disk[k := disk[k][bi / 8 := AndNotByte(disk[k][bi / 8], bi % 8)]];
      ok := true;
    }

    /** Writes the in-memory inode to the disk. */
    method Iupdate(i: int)
      requires Owned(g, disk, inodes, {}) && 0 <= i < |inodes|
      modifies this`disk
      ensures Owned(g, disk, inodes, {}) && FilesKept(old(disk), inodes, disk, inodes)
      ensures AllSlots(disk, inodes) == AllSlots(old(disk), inodes) && Bits(g, disk) == Bits(g, old(disk))
      ensures forall j | 0 <= j < |inodes| ::
                Dinode(g, disk, j) == if j == i then inodes[i] else Dinode(g, old(disk), j)
    {
      UpdateKeeps(g, disk, inodes, i);
      var k := g.inodestart + i / IPB;
      disk := disk[k := Patch(disk[k], i % IPB * 64, Pack(inodes[i]))];
    }

    /** The address of block bn of file i, allocated if need be; -1 is a panic. */
    method Bmap(i: int, bn: int) returns (addr: int)
      requires Owned(g, disk, inodes, {}) && 0 <= i < |inodes| && 0 <= bn
      modifies this`disk, this`inodes
      ensures addr == -1 ==> bn >= MAXFILE || (Slot(old(disk), old(inodes)[i], bn) == 0 && Full(g, disk))
      ensures addr != -1 ==> Mapped(g, old(disk), old(inodes), disk, inodes, i, bn, addr)
    {
      if bn < NDIRECT {
        addr := inodes[i].addrs[bn];
        if addr == 0 {
          addr := BallocFor(i, bn);
          if addr != -1 {
            AttachedMapped(g, old(disk), old(inodes), disk, inodes, i, bn, addr);
          }
        }
        return;
      }
      if bn < MAXFILE {
        addr := inodes[i].addrs[NDIRECT];
        if addr == 0 {
          addr := BallocFor(i, NDIRECT);
          if addr == -1 {
            return;
          }
        }
        ghost var disk', a := disk, addr;
        addr := BmapEntry(i, addr, bn);
        if addr != -1 && old(inodes)[i].addrs[NDIRECT] == 0 {
          AttachedThenMapped(g, old(disk), old(inodes), disk', inodes, disk, i, bn, a, addr);
        }
        return;
      }
      addr := -1;
    }

    /** The indirect half of bmap; a is the indirect block. */
    method BmapEntry(i: int, a: int, bn: int) returns (addr: int)
      requires Owned(g, disk, inodes, {}) && 0 <= i < |inodes| && NDIRECT <= bn < MAXFILE
               && a == inodes[i].addrs[NDIRECT] != 0
      modifies this`disk
      ensures addr == -1 ==> Slot(old(disk), inodes[i], bn) == 0 && Full(g, disk)
      ensures addr != -1 ==> Mapped(g, old(disk), inodes, disk, inodes, i, bn, addr)
    {
      assert AllSlots(disk, inodes)[i][MAXFILE] == a;
      addr := Entry(disk[a], bn - NDIRECT);
      if addr == 0 {
        MetadataMarked(g, disk, inodes, {});
        addr := Balloc();
        if addr != -1 {
          FreshEntry(g, old(disk), disk, inodes, i, bn, addr);
          disk := disk[a := PutEntry(disk[a], bn - NDIRECT, addr)];
          AttachedMapped(g, old(disk), inodes, disk, inodes, i, bn, addr);
        }
      }
    }

    /** ip->addrs[k] = balloc(). */
    method BallocFor(i: int, k: int) returns (addr: int)
      requires Owned(g, disk, inodes, {}) && 0 <= i < |inodes| && 0 <= k <= NDIRECT && inodes[i].addrs[k] == 0
      modifies this`disk, this`inodes
      ensures addr == -1 ==> Full(g, disk)
      ensures addr != -1 ==>
                && Attaches(g, old(disk), old(inodes), disk, inodes, i, if k < NDIRECT then k else MAXFILE, addr)
                             && inodes[i].addrs[k] == addr
    {
      MetadataMarked(g, disk, inodes, {});
      addr := Balloc();
      if addr != -1 {
        FreshAddr(g, old(disk), disk, inodes, i, k, addr);
        inodes := inodes[i := inodes[i].(addrs := inodes[i].addrs[k := addr])];
      }
    }

    /** The bytes of the file from off0 on, n0 of them or those there are; nothing changes.  A
        device file goes to its driver. */
    method Readi(i: int, off0: int, n0: int, drivers: set<int>) returns (r: Outcome, dst: seq<byte>)
      requires Valid() && 0 <= i < |inodes| && 0 <= off0 < WORDS && 0 <= n0 < WORDS
      modifies this`disk, this`inodes
      ensures disk == old(disk) && inodes == old(inodes)
      ensures var p := inodes[i];
              p.kind == T_DEV ==>
                dst == [] && r == if 0 <= p.major < NDEV && p.major in drivers then Device(p.major) else Failed
      ensures var p := inodes[i];
              p.kind != T_DEV && off0 <= p.size && off0 + n0 < WORDS ==>
                && Solid(disk, p) && off0 <= Min(off0 + n0, p.size) <= |Content(disk, p)| == p.size
                && dst == Content(disk, p)[off0..Min(off0 + n0, p.size)] && r == Done(|dst|)
      ensures var p := inodes[i];
              p.kind != T_DEV && (off0 > p.size || off0 + n0 >= WORDS) ==> dst == [] && r == Failed
    {
      dst := [];
      var off, n := off0, n0;
      if inodes[i].kind == T_DEV {
        if inodes[i].major < 0 || inodes[i].major >= NDEV || inodes[i].major !in drivers {
          return Failed, dst;
        }
        return Device(inodes[i].major), dst;
      }
      if off > inodes[i].size || (off + n) % WORDS < off {
        return Failed, dst;
      }
      if off + n > inodes[i].size {
        n := inodes[i].size - off;
      }
      dst := ReadBlocks(i, off, n);
      ghost var all := Flat(Blocks(disk, inodes[i]));
      assert all[..inodes[i].size][off..off + n] == all[off..off + n];
      r := Done(n);
    }

    /** readi's loop. */
    method ReadBlocks(i: int, off0: int, n: int) returns (dst: seq<byte>)
      requires Owned(g, disk, inodes, {}) && 0 <= i < |inodes| && Solid(disk, inodes[i])
      requires 0 <= off0 && 0 <= n && off0 + n <= inodes[i].size
      modifies this`disk, this`inodes
      ensures disk == old(disk) && inodes == old(inodes)
      ensures dst == Flat(Blocks(disk, inodes[i]))[off0..off0 + n]
    {
      dst := [];
      ghost var all := Flat(Blocks(disk, inodes[i]));
      var tot, off := 0, off0;
      while tot < n
        invariant 0 <= tot <= n && off == off0 + tot
        invariant disk == old(disk) && inodes == old(inodes)
        invariant dst == all[off0..off0 + tot]
      {
        var m := Min(n - tot, BSIZE - off % BSIZE);
        var part := ReadBlock(i, off, m);
        dst := dst + part;
        assert all[off0..off0 + tot + m] == all[off0..off0 + tot] + all[off..off + m];
        tot, off := tot + m, off + m;
      }
    }

    method ReadBlock(i: int, off: int, m: int) returns (dst: seq<byte>)
      requires Owned(g, disk, inodes, {}) && 0 <= i < |inodes| && Solid(disk, inodes[i])
      requires 0 <= off < inodes[i].size && 0 <= m <= BSIZE - off % BSIZE
      modifies this`disk, this`inodes
      ensures disk == old(disk) && inodes == old(inodes)
      ensures off + m <= MAXFILE * BSIZE && dst == Flat(Blocks(disk, inodes[i]))[off..off + m]
    {
      ghost var bs, bn := Blocks(disk, inodes[i]), off / BSIZE;
      assert Slot(disk, inodes[i], bn) != 0;
      var addr := Bmap(i, off / BSIZE);
      assert AllSlots(disk, inodes)[i][bn] == addr;
      assert bs[bn] == disk[addr];
      FlatSlice(bs, bn, off % BSIZE, m);
      dst := disk[addr][off % BSIZE..off % BSIZE + m];
    }

    /** One round of writei's loop; !ok is a panic. */
    method WriteBlock(i: int, off: int, u: seq<byte>, ghost disk0: seq<Block>, ghost inodes0: seq<Inode>,
                      ghost off0: int, ghost t: seq<byte>)
      returns (ok: bool)
      requires Writing(g, disk0, inodes0, disk, inodes, i, off0, t) && off == off0 + |t|
      requires u != [] && |u| <= BSIZE - off % BSIZE && off + |u| <= MAXFILE * BSIZE
      modifies this`disk, this`inodes
      ensures ok ==> Writing(g, disk0, inodes0, disk, inodes, i, off0, t + u)
      ensures !ok ==> Full(g, disk)
    {
      var addr := Bmap(i, off / BSIZE);
      if addr == -1 {
        return false;
      }
      WritingMapped(g, disk0, inodes0, old(disk), old(inodes), disk, inodes, i, off0, t, addr);
      ReadiedWritten(g, disk0, inodes0, disk, inodes, i, off0, t, u, addr);
      disk := disk[addr := Patch(disk[addr], off % BSIZE, u)];
      ok := true;
    }

    /** writei's loop; !ok is a panic. */
    method WriteBlocks(i: int, off0: int, src: seq<byte>) returns (ok: bool)
      requires Writing(g, disk, inodes, disk, inodes, i, off0, []) && off0 + |src| <= MAXFILE * BSIZE
      modifies this`disk, this`inodes
      ensures ok ==> Writing(g, old(disk), old(inodes), disk, inodes, i, off0, src)
      ensures !ok ==> Full(g, disk)
    {
      var tot, off, n := 0, off0, |src|;
      while tot < n
        invariant 0 <= tot <= n && off == off0 + tot
        invariant Writing(g, old(disk), old(inodes), disk, inodes, i, off0, src[..tot])
      {
        var m := Min(n - tot, BSIZE - off % BSIZE);
        ok := WriteBlock(i, off, src[tot..tot + m], old(disk), old(inodes), off0, src[..tot]);
        if !ok {
          return;
        }
        assert src[..tot] + src[tot..tot + m] == src[..tot + m];
        tot, off := tot + m, off + m;
      }
      assert src[..tot] == src;
      ok := true;
    }

    /** Splices the first n bytes of src into the file, or panics because the disk is full. */
    method Writei(i: int, src: seq<byte>, off: int, n: int, drivers: set<int>) returns (r: Outcome)
      requires Valid() && 0 <= i < |inodes| && 0 <= off < WORDS && 0 <= n < WORDS && n <= |src|
      modifies this`disk, this`inodes
      ensures var p := old(inodes)[i];
              p.kind == T_DEV ==> r == if 0 <= p.major < NDEV && p.major in drivers then Device(p.major) else Failed
      ensures var p := old(inodes)[i];
              p.kind != T_DEV && off <= p.size && off + n <= MAXFILE * BSIZE ==>
                r == Done(n) || (r == Panic && Full(g, disk))
      ensures var p := old(inodes)[i];
              p.kind != T_DEV && (off > p.size || off + n > MAXFILE * BSIZE) ==> r == Failed
      ensures r.Done? ==> Valid() && Wrote(old(disk), old(inodes), disk, inodes, i, off, src[..n])
      ensures r.Failed? || r.Device? ==> disk == old(disk) && inodes == old(inodes)
    {
      if inodes[i].kind == T_DEV {
        if inodes[i].major < 0 || inodes[i].major >= NDEV || inodes[i].major !in drivers {
          return Failed;
        }
        return Device(inodes[i].major);
      }
      assert Solid(disk, inodes[i]);
      if off > inodes[i].size || (off + n) % WORDS < off {
        return Failed;
      }
      if off + n > MAXFILE * BSIZE {
        return Failed;
      }
      WritingStart(g, disk, inodes, i, off);
      var ok := WriteBlocks(i, off, src[..n]);
      if !ok {
        return Panic;
      }
      WriteSize(i, off + n, n, off, src[..n], old(disk), old(inodes));
      r := Done(n);
    }

    /** What is written is read back, whole and by any part, and the rest of the file with it. */
    method WriteAndRead(i: int, src: seq<byte>, off: int, drivers: set<int>) returns (r: Outcome, dst: seq<byte>)
      requires Valid() && 0 <= i < |inodes| && 0 <= off <= inodes[i].size && inodes[i].kind != T_DEV
      requires off + |src| <= MAXFILE * BSIZE
      modifies this`disk, this`inodes
      ensures r == Panic || (r == Done(|src|) && dst == src && Valid())
      ensures r == Done(|src|) ==>
                && AllSolid(old(disk), old(inodes)) && AllSolid(disk, inodes) && |inodes| == |old(inodes)|
                && var c, c' := Content(old(disk), old(inodes)[i]), Content(disk, inodes[i]);
                && off <= |c| && |c'| == Max(|c|, off + |src|) && c'[..off] == c[..off] && c'[off..off + |src|] == src
                && c'[Min(off + |src|, |c'|)..] == c[Min(off + |src|, |c|)..]
    {
      r := Writei(i, src, off, |src|, drivers);
      dst := [];
      if r == Panic {
        return;
      }
      ghost var c, c' := Content(old(disk), old(inodes)[i]), Content(disk, inodes[i]);
      assert src[..|src|] == src;
      assert c' == Spliced(c, off, src) && c'[off..off + |src|] == src;
      r, dst := Readi(i, off, |src|, drivers);
    }

    /** The end of writei: the size grows and the inode is written, or neither. */
    method WriteSize(i: int, off: int, n: int, ghost off0: int, ghost t: seq<byte>, ghost disk0: seq<Block>,
                     ghost inodes0: seq<Inode>)
      requires Good(g, disk0, inodes0) && Writing(g, disk0, inodes0, disk, inodes, i, off0, t)
      requires off0 <= inodes0[i].size && off == off0 + |t| && n == |t|
      modifies this`disk, this`inodes
      ensures Valid() && Wrote(disk0, inodes0, disk, inodes, i, off0, t)
    {
      if n > 0 && off > inodes[i].size {
        GrowSize(i, off, off0, t, disk0, inodes0);
      } else {
        WriteKept(g, disk0, inodes0, disk, inodes, i, off0, t);
      }
    }

    /** The size update of a write past the end. */
    method GrowSize(i: int, off: int, ghost off0: int, ghost t: seq<byte>, ghost disk0: seq<Block>,
                    ghost inodes0: seq<Inode>)
      requires Good(g, disk0, inodes0) && Writing(g, disk0, inodes0, disk, inodes, i, off0, t)
      requires off0 <= inodes0[i].size < off == off0 + |t|
      modifies this`disk, this`inodes
      ensures Valid() && Wrote(disk0, inodes0, disk, inodes, i, off0, t)
    {
      WriteGrown(g, disk0, inodes0, disk, inodes, i, off0, t);
      inodes := inodes[i := inodes[i].(size := off)];
      ghost var disk1 := disk;
      Iupdate(i);
      assert forall j | 0 <= j < |inodes| :: Dinode(g, disk, j) == inodes[j];
      UpdatedGood(g, disk0, inodes0, disk1, disk, inodes, i, off0, t);
    }

    /** bfree of one slot, if it is in use; never the panic. */
    method FreeSlot(b: int, ghost disk0: seq<Block>, ghost inodes0: seq<Inode>, ghost i: int, ghost t: int)
      returns (ok: bool)
      requires Truncating(g, disk0, inodes0, disk, i, t) && t < SLOTS && b == Slots(disk0, inodes0[i])[t]
      modifies this`disk
      ensures ok && Truncating(g, disk0, inodes0, disk, i, t + 1)
    {
      ok := true;
      if b != 0 {
        TruncMarked(g, disk0, inodes0, disk, i, t);
        ok := Bfree(b);
      }
      TruncStep(g, disk0, inodes0, old(disk), disk, i, t);
    }

    method FreeDirect(i: int) returns (ok: bool)
      requires Truncating(g, disk, inodes, disk, i, 0)
      modifies this`disk, this`inodes
      ensures ok && Truncating(g, old(disk), old(inodes), disk, i, NDIRECT)
      ensures var p := old(inodes)[i];
              inodes == old(inodes)[i := Bare(p).(addrs := Bare(p).addrs[NDIRECT := p.addrs[NDIRECT]])]
    {
      ok := true;
      var k := 0;
      while k < NDIRECT
        invariant 0 <= k <= NDIRECT && ok && Truncating(g, old(disk), old(inodes), disk, i, k)
        invariant |inodes| == |old(inodes)| && |inodes[i].addrs| == NDIRECT + 1
        invariant inodes == old(inodes)[i := old(inodes)[i].(addrs := inodes[i].addrs)]
        invariant forall l | 0 <= l <= NDIRECT :: inodes[i].addrs[l] == if l < k then 0 else old(inodes)[i].addrs[l]
      {
        assert Slots(old(disk), old(inodes)[i])[k] == inodes[i].addrs[k];
        ok := FreeSlot(inodes[i].addrs[k], old(disk), old(inodes), i, k);
        inodes := inodes[i := inodes[i].(addrs := inodes[i].addrs[k := 0])];
        k := k + 1;
      }
      assert inodes[i].addrs == Bare(old(inodes)[i]).addrs[NDIRECT := old(inodes)[i].addrs[NDIRECT]];
    }

    method FreeIndirect(a: int, ghost disk0: seq<Block>, ghost i: int, ghost inodes0: seq<Inode>) returns (ok: bool)
      requires Truncating(g, disk0, inodes0, disk, i, NDIRECT) && a == inodes0[i].addrs[NDIRECT] != 0
      modifies this`disk
      ensures ok && Truncating(g, disk0, inodes0, disk, i, SLOTS)
    {
      RowSingle(g, disk0, inodes0, i);
      assert Slots(disk0, inodes0[i])[MAXFILE] == a;
      ok := true;
      var j := 0;
      while j < NINDIRECT
        invariant 0 <= j <= NINDIRECT && ok && Truncating(g, disk0, inodes0, disk, i, NDIRECT + j)
      {
        assert disk[a] == disk0[a];
        assert Slots(disk0, inodes0[i])[NDIRECT + j] == Entry(disk[a], j);
        ok := FreeSlot(Entry(disk[a], j), disk0, inodes0, i, NDIRECT + j);
        j := j + 1;
      }
      ok := FreeSlot(a, disk0, inodes0, i, MAXFILE);
    }

    /** Frees exactly the blocks of inode i and empties it; no panic. */
    method Itrunc(i: int) returns (ok: bool)
      requires Valid() && 0 <= i < |inodes|
      modifies this`disk, this`inodes
      ensures ok && Valid() && Truncated(g, old(disk), old(inodes), disk, inodes, i)
      ensures inodes[i].size == 0 && forall k | 0 <= k < |inodes[i].addrs| :: inodes[i].addrs[k] == 0
    {
      TruncStart(g, disk, inodes, i);
      ok := FreeDirect(i);
      var a := inodes[i].addrs[NDIRECT];
      if a != 0 {
        ok := FreeIndirect(a, old(disk), i, old(inodes));
        inodes := inodes[i := inodes[i].(addrs := inodes[i].addrs[NDIRECT := 0])];
      } else {
        TruncSkip(g, old(disk), old(inodes), disk, i);
      }
      inodes := inodes[i := inodes[i].(size := 0)];
      assert inodes[i].addrs == Bare(old(inodes)[i]).addrs;
      ghost var disk1 := disk;
      TruncOwned(g, old(disk), old(inodes), disk, inodes, i);
      Iupdate(i);
      TruncEnd(g, old(disk), old(inodes), disk1, disk, inodes, i);
    }
  }
}
