/** The on-disk formats of fs.h at the level of bytes: the free bitmap, the words of an
    indirect block, and the packed inodes. */
module FsBytes {
  import opened Common

  const BSIZE := 512
  const NDIRECT := 12
  const NINDIRECT := 128
  const MAXFILE := 140
  const BPB := 4096
  const IPB := 8
  const WORDS := 0x1_0000_0000

  type byte = x: int | 0 <= x < 256
  type Block = b: seq<byte> | |b| == BSIZE witness seq(BSIZE, _ => 0)

  function Zeros(): Block
  {
    seq(BSIZE, _ => 0)
  }

  /** The super block; data is the first block after the bitmap. */
  datatype Super = Super(size: int, ninodes: int, inodestart: int, bmapstart: int, data: int)

  /** The regions in the order in which mkfs lays them out. */
  predicate Formatted(g: Super)
  {
    && 0 <= g.ninodes && 0 < g.inodestart
    && g.inodestart + g.ninodes / IPB < g.bmapstart
    && g.bmapstart + g.size / BPB < g.data <= g.size < WORDS
  }

  // ------------------------------------------------------------- bitmap

  /** x & (1 << k) is not zero. */
  predicate Test(x: int, k: int)
    requires 0 <= k
    decreases k
  {
    if k == 0 then x % 2 == 1 else Test(x / 2, k - 1)
  }

  /** x | (1 << k), for a number x of n bits. */
  function Or(x: int, k: int, n: nat): (r: int)
    requires 0 <= k < n && 0 <= x < Pow2(n)
    ensures 0 <= r < Pow2(n)
    decreases n
  {
    if k == 0 then x / 2 * 2 + 1 else x % 2 + 2 * Or(x / 2, k - 1, n - 1)
  }

  /** x & ~(1 << k), for a number x of n bits. */
  function AndNot(x: int, k: int, n: nat): (r: int)
    requires 0 <= k < n && 0 <= x < Pow2(n)
    ensures 0 <= r < Pow2(n)
    decreases n
  {
    if k == 0 then x / 2 * 2 else x % 2 + 2 * AndNot(x / 2, k - 1, n - 1)
  }

  lemma {:induction false} TestOr(x: int, j: int, n: nat, k: int)
    requires 0 <= j < n && 0 <= x < Pow2(n) && 0 <= k
    ensures Test(Or(x, j, n), k) <==> j == k || Test(x, k)
    decreases n
  {
    if j > 0 {
      var r := Or(x, j, n);
      assert r / 2 == Or(x / 2, j - 1, n - 1) && r % 2 == x % 2;
      if k > 0 {
        TestOr(x / 2, j - 1, n - 1, k - 1);
      }
    } else {
      assert Or(x, j, n) / 2 == x / 2;
    }
  }

  lemma {:induction false} TestAndNot(x: int, j: int, n: nat, k: int)
    requires 0 <= j < n && 0 <= x < Pow2(n) && 0 <= k
    ensures Test(AndNot(x, j, n), k) <==> j != k && Test(x, k)
    decreases n
  {
    if j > 0 {
      var r := AndNot(x, j, n);
      assert r / 2 == AndNot(x / 2, j - 1, n - 1) && r % 2 == x % 2;
      if k > 0 {
        TestAndNot(x / 2, j - 1, n - 1, k - 1);
      }
    } else {
      assert AndNot(x, j, n) / 2 == x / 2;
    }
  }

  function OrByte(x: byte, k: int): byte
    requires 0 <= k < 8
  {
    assert Pow2(8) == 256;
    Or(x, k, 8)
  }

  function AndNotByte(x: byte, k: int): byte
    requires 0 <= k < 8
  {
    assert Pow2(8) == 256;
    AndNot(x, k, 8)
  }

  lemma TestAfter(x: byte, j: int, k: int)
    requires 0 <= j < 8 && 0 <= k < 8
    ensures Test(OrByte(x, j), k) <==> j == k || Test(x, k)
    ensures Test(AndNotByte(x, j), k) <==> j != k && Test(x, k)
  {
    assert Pow2(8) == 256;
    TestOr(x, j, 8, k);
    TestAndNot(x, j, 8, k);
  }

  predicate Bit(g: Super, disk: seq<Block>, b: int)
    requires Formatted(g) && |disk| == g.size && 0 <= b < g.size
  {
    Test(disk[g.bmapstart + b / BPB][b % BPB / 8], b % BPB % 8)
  }

  lemma {:induction false} TestIs(x: int, k: nat)
    requires 0 <= x
    ensures Test(x, k) <==> x / Pow2(k) % 2 == 1
    decreases k
  {
    if k > 0 {
      TestIs(x / 2, k - 1);
      DivTwice(x, Pow2(k - 1));
    }
  }

  lemma DivTwice(x: int, m: int)
    requires 0 <= x && 0 < m
    ensures x / 2 / m == x / (2 * m)
  {
    var q, r := x / 2 / m, x / 2 % m;
    assert x / 2 == q * m + r;
    assert x == 2 * (x / 2) + x % 2;
    var rest := 2 * r + x % 2;
    assert x == q * (2 * m) + rest && 0 <= rest < 2 * m;
    QuotientIs(x, 2 * m, q, rest);
  }

  lemma QuotientIs(x: int, m: int, q: int, r: int)
    requires 0 < m && x == q * m + r && 0 <= r < m
    ensures x / m == q
  {
    var d := x / m - q;
    assert x == x / m * m + x % m;
    assert d * m == r - x % m;
    if d > 0 {
      AtLeast(d, m);
    } else if d < 0 {
      AtLeast(-d, m);
    }
  }

  lemma {:induction false} AtLeast(d: nat, m: nat)
    requires d > 0
    ensures d * m >= m
    decreases d
  {
    if d > 1 {
      AtLeast(d - 1, m);
      assert d * m == (d - 1) * m + m;
    }
  }

  lemma LowBits(b: int)
    ensures b % 4096 % 8 == b % 8
  {
  }

  /** Where the bit of block b is on disk. */
  lemma BitPlace(g: Super, disk: seq<Block>, b: int)
    requires Formatted(g) && |disk| == g.size && 0 <= b < g.size
    ensures Bit(g, disk, b) <==> disk[g.bmapstart + b / 4096][b % 4096 / 8] / Pow2(b % 8) % 2 == 1
  {
    LowBits(b);
    TestIs(disk[g.bmapstart + b / 4096][b % 4096 / 8], b % 8);
  }

  function Bits(g: Super, disk: seq<Block>): seq<bool>
    requires Formatted(g) && |disk| == g.size
  {
    seq(g.size, b requires 0 <= b < g.size => Bit(g, disk, b))
  }

  lemma SamePlace(b: int, c: int)
    requires 0 <= b && 0 <= c && b / BPB == c / BPB && b % BPB / 8 == c % BPB / 8 && b % BPB % 8 == c % BPB % 8
    ensures b == c
  {
  }

  /** The byte that holds the bit of block b, changed. */
  function WithByte(g: Super, disk: seq<Block>, b: int, x: byte): seq<Block>
    requires Formatted(g) && |disk| == g.size && 0 <= b < g.size
  {
    var k := g.bmapstart + b / BPB;
    disk[k := disk[k][b % BPB / 8 := x]]
  }

  function ByteOf(g: Super, disk: seq<Block>, b: int): byte
    requires Formatted(g) && |disk| == g.size && 0 <= b < g.size
  {
    disk[g.bmapstart + b / BPB][b % BPB / 8]
  }

  predicate SameByte(b: int, c: int)
  {
    b / BPB == c / BPB && b % BPB / 8 == c % BPB / 8
  }

  lemma BitAfter(g: Super, disk: seq<Block>, b: int, x: byte, c: int)
    requires Formatted(g) && |disk| == g.size && 0 <= b < g.size && 0 <= c < g.size
    ensures Bit(g, WithByte(g, disk, b, x), c) <==>
              if SameByte(b, c) then Test(x, c % BPB % 8) else Bit(g, disk, c)
    ensures SameByte(b, c) ==> ByteOf(g, disk, b) == ByteOf(g, disk, c)
  {
  }

  lemma SetBit(g: Super, disk: seq<Block>, b: int)
    requires Formatted(g) && |disk| == g.size && 0 <= b < g.size
    ensures Bits(g, WithByte(g, disk, b, OrByte(ByteOf(g, disk, b), b % BPB % 8))) == Bits(g, disk)[b := true]
  {
    var x, k := ByteOf(g, disk, b), b % BPB % 8;
    var disk' := WithByte(g, disk, b, OrByte(x, k));
    forall c | 0 <= c < g.size ensures Bit(g, disk', c) <==> c == b || Bit(g, disk, c) {
      BitAfter(g, disk, b, OrByte(x, k), c);
      TestAfter(x, k, c % BPB % 8);
      if SameByte(b, c) && k == c % BPB % 8 {
        SamePlace(b, c);
      }
    }
  }

  lemma ClearBit(g: Super, disk: seq<Block>, b: int)
    requires Formatted(g) && |disk| == g.size && 0 <= b < g.size
    ensures Bits(g, WithByte(g, disk, b, AndNotByte(ByteOf(g, disk, b), b % BPB % 8))) == Bits(g, disk)[b := false]
  {
    var x, k := ByteOf(g, disk, b), b % BPB % 8;
    var disk' := WithByte(g, disk, b, AndNotByte(x, k));
    forall c | 0 <= c < g.size ensures Bit(g, disk', c) <==> c != b && Bit(g, disk, c) {
      BitAfter(g, disk, b, AndNotByte(x, k), c);
      TestAfter(x, k, c % BPB % 8);
      if SameByte(b, c) && k == c % BPB % 8 {
        SamePlace(b, c);
      }
    }
  }

  // ---------------------------------------------------------- words

  /** A little-endian number. */
  function Load(s: seq<byte>): (v: int)
    ensures 0 <= v
  {
    if s == [] then 0 else s[0] + 256 * Load(s[1..])
  }

  function Store(v: int, n: nat): (s: seq<byte>)
    ensures |s| == n
    decreases n
  {
    if n == 0 then [] else [v % 256] + Store(v / 256, n - 1)
  }

  function Top(n: nat): (r: int)
    ensures 0 < r
  {
    if n == 0 then 1 else 256 * Top(n - 1)
  }

  /** Reading back what was stored. */
  lemma {:induction false} LoadStore(v: int, n: nat)
    requires 0 <= v < Top(n)
    ensures Load(Store(v, n)) == v
    decreases n
  {
    if n > 0 {
      assert Store(v, n)[1..] == Store(v / 256, n - 1);
      LoadStore(v / 256, n - 1);
    }
  }

  lemma WordRound(v: int)
    requires 0 <= v < WORDS
    ensures Load(Store(v, 4)) == v
  {
    assert Top(4) == WORDS;
    LoadStore(v, 4);
  }

  function Patch(s: seq<byte>, o: int, t: seq<byte>): (r: seq<byte>)
    requires 0 <= o && o + |t| <= |s|
    ensures |r| == |s|
  {
    s[..o] + t + s[o + |t|..]
  }

  lemma PatchAt(s: seq<byte>, o: int, t: seq<byte>, p: int, n: int)
    requires 0 <= o && o + |t| <= |s| && 0 <= p && 0 <= n && p + n <= |s|
    ensures Patch(s, o, t)[o..o + |t|] == t
    ensures p + n <= o || o + |t| <= p ==> Patch(s, o, t)[p..p + n] == s[p..p + n]
  {
  }

  lemma SliceLeft(x: seq<byte>, y: seq<byte>, i: int, j: int)
    requires 0 <= i <= j <= |x|
    ensures (x + y)[i..j] == x[i..j]
  {
  }

  lemma SliceRight(x: seq<byte>, y: seq<byte>, i: int, j: int)
    requires 0 <= i <= j <= |y|
    ensures (x + y)[|x| + i..|x| + j] == y[i..j]
  {
  }

  /** a[k] of an indirect block. */
  function Entry(b: Block, k: int): int
    requires 0 <= k < NINDIRECT
  {
    Load(b[4 * k..4 * k + 4])
  }

  function PutEntry(b: Block, k: int, v: int): Block
    requires 0 <= k < NINDIRECT
  {
    Patch(b, 4 * k, Store(v, 4))
  }

  lemma EntryPut(b: Block, k: int, v: int, j: int)
    requires 0 <= k < NINDIRECT && 0 <= j < NINDIRECT && 0 <= v < WORDS
    ensures Entry(PutEntry(b, k, v), j) == if j == k then v else Entry(b, j)
  {
    PatchAt(b, 4 * k, Store(v, 4), 4 * j, 4);
    WordRound(v);
  }

  lemma EntryZero(k: int)
    requires 0 <= k < NINDIRECT
    ensures Entry(Zeros(), k) == 0
  {
    assert Zeros()[4 * k..4 * k + 4] == [0, 0, 0, 0] == Store(0, 4);
    WordRound(0);
  }

  // ---------------------------------------------------------- inodes

  /** The fields that live on disk; kind is the source's type. */
  datatype Inode = Inode(kind: int, major: int, minor: int, nlink: int, size: int, addrs: seq<int>)

  predicate IsShort(x: int)
  {
    -32768 <= x < 32768
  }

  predicate Storable(p: Inode)
  {
    && IsShort(p.kind) && IsShort(p.major) && IsShort(p.minor) && IsShort(p.nlink)
    && 0 <= p.size < WORDS && |p.addrs| == NDIRECT + 1
    && forall k | 0 <= k <= NDIRECT :: 0 <= p.addrs[k] < WORDS
  }

  /** A 16-bit two's complement number. */
  function Short(u: int): int
  {
    if u < 32768 then u else u - 65536
  }

  /** Four-byte cells in a row. */
  function Row(cs: seq<seq<byte>>): (s: seq<byte>)
    requires forall k | 0 <= k < |cs| :: |cs[k]| == 4
    ensures |s| == 4 * |cs|
  {
    if cs == [] then [] else cs[0] + Row(cs[1..])
  }

  lemma {:induction false} RowAt(cs: seq<seq<byte>>, k: int)
    requires (forall j | 0 <= j < |cs| :: |cs[j]| == 4) && 0 <= k < |cs|
    ensures Row(cs)[4 * k..4 * k + 4] == cs[k]
    decreases k
  {
    if k > 0 {
      RowAt(cs[1..], k - 1);
      SliceRight(cs[0], Row(cs[1..]), 4 * (k - 1), 4 * (k - 1) + 4);
    } else {
      SliceLeft(cs[0], Row(cs[1..]), 0, 4);
    }
  }

  function StoreAll(a: seq<int>): (s: seq<byte>)
    ensures |s| == 4 * |a|
  {
    Row(seq(|a|, k requires 0 <= k < |a| => Store(a[k], 4)))
  }

  lemma StoreAllAt(a: seq<int>, k: int)
    requires 0 <= k < |a|
    ensures StoreAll(a)[4 * k..4 * k + 4] == Store(a[k], 4)
  {
    RowAt(seq(|a|, k requires 0 <= k < |a| => Store(a[k], 4)), k);
  }

  /** The fields of a struct dinode before addrs, in memory order. */
  function PackHead(p: Inode): (s: seq<byte>)
    ensures |s| == 12
  {
    Store(p.kind % 65536, 2) + Store(p.major % 65536, 2) + Store(p.minor % 65536, 2) + Store(p.nlink % 65536, 2)
    + Store(p.size, 4)
  }

  function Pack(p: Inode): (s: seq<byte>)
    ensures |s| == 12 + 4 * |p.addrs|
  {
    PackHead(p) + StoreAll(p.addrs)
  }

  function Unpack(s: seq<byte>): Inode
    requires |s| == 64
  {
    Inode(Short(Load(s[..2])), Short(Load(s[2..4])), Short(Load(s[4..6])), Short(Load(s[6..8])), Load(s[8..12]),
          seq(NDIRECT + 1, k requires 0 <= k <= NDIRECT => Load(s[12..][4 * k..4 * k + 4])))
  }

  lemma ShortRound(x: int)
    requires IsShort(x)
    ensures Short(Load(Store(x % 65536, 2))) == x
  {
    assert Top(2) == 65536;
    LoadStore(x % 65536, 2);
  }

  lemma UnpackHead(s: seq<byte>, p: Inode)
    requires Storable(p) && |s| == 64 && s[..12] == PackHead(p)
    ensures Unpack(s).(addrs := p.addrs) == p
  {
    var h := PackHead(p);
    assert s[..2] == h[..2] == Store(p.kind % 65536, 2);
    assert s[2..4] == h[2..4] == Store(p.major % 65536, 2);
    assert s[4..6] == h[4..6] == Store(p.minor % 65536, 2);
    assert s[6..8] == h[6..8] == Store(p.nlink % 65536, 2);
    assert s[8..12] == h[8..] == Store(p.size, 4);
    ShortRound(p.kind);
    ShortRound(p.major);
    ShortRound(p.minor);
    ShortRound(p.nlink);
    WordRound(p.size);
  }

  lemma UnpackAddrs(s: seq<byte>, p: Inode)
    requires Storable(p) && |s| == 64 && s[12..] == StoreAll(p.addrs)
    ensures Unpack(s).addrs == p.addrs
  {
    forall k | 0 <= k <= NDIRECT ensures Unpack(s).addrs[k] == p.addrs[k] {
      StoreAllAt(p.addrs, k);
      WordRound(p.addrs[k]);
    }
  }

  lemma UnpackPack(p: Inode)
    requires Storable(p)
    ensures |Pack(p)| == 64 && Unpack(Pack(p)) == p
  {
    UnpackHead(Pack(p), p);
    UnpackAddrs(Pack(p), p);
  }

  function InodeBytes(g: Super, disk: seq<Block>, i: int): (t: seq<byte>)
    requires Formatted(g) && |disk| == g.size && 0 <= i < g.ninodes
    ensures |t| == 64
  {
    disk[g.inodestart + i / IPB][i % IPB * 64..i % IPB * 64 + 64]
  }

  function WithInodeBytes(g: Super, disk: seq<Block>, i: int, t: seq<byte>): seq<Block>
    requires Formatted(g) && |disk| == g.size && 0 <= i < g.ninodes && |t| == 64
  {
    var k := g.inodestart + i / IPB;
    disk[k := Patch(disk[k], i % IPB * 64, t)]
  }

  lemma InodePlaces(i: int, j: int)
    requires 0 <= i && 0 <= j && i != j && i / IPB == j / IPB
    ensures i % IPB * 64 + 64 <= j % IPB * 64 || j % IPB * 64 + 64 <= i % IPB * 64
  {
  }

  lemma BytesSame(g: Super, disk: seq<Block>, i: int, t: seq<byte>)
    requires Formatted(g) && |disk| == g.size && 0 <= i < g.ninodes && |t| == 64
    ensures InodeBytes(g, WithInodeBytes(g, disk, i, t), i) == t
  {
    PatchAt(disk[g.inodestart + i / IPB], i % IPB * 64, t, 0, 0);
  }

  lemma BytesElse(g: Super, disk: seq<Block>, i: int, t: seq<byte>, j: int)
    requires Formatted(g) && |disk| == g.size && 0 <= i < g.ninodes && 0 <= j < g.ninodes && |t| == 64 && i != j
    ensures InodeBytes(g, WithInodeBytes(g, disk, i, t), j) == InodeBytes(g, disk, j)
  {
    if i / IPB == j / IPB {
      InodePlaces(i, j);
      PatchAt(disk[g.inodestart + i / IPB], i % IPB * 64, t, j % IPB * 64, 64);
    }
  }

  /** Inode i on disk. */
  function Dinode(g: Super, disk: seq<Block>, i: int): Inode
    requires Formatted(g) && |disk| == g.size && 0 <= i < g.ninodes
  {
    Unpack(InodeBytes(g, disk, i))
  }

  function WithInode(g: Super, disk: seq<Block>, i: int, p: Inode): seq<Block>
    requires Formatted(g) && |disk| == g.size && 0 <= i < g.ninodes && Storable(p)
  {
    WithInodeBytes(g, disk, i, Pack(p))
  }

  /** Where the fields of inode i are on disk: shorts for type, major, minor and nlink, then
      words for size and the addresses, little-endian, 64 bytes an inode and 8 a block. */
  lemma InodeLayout(g: Super, disk: seq<Block>, i: int, k: int)
    requires Formatted(g) && |disk| == g.size && 0 <= i < g.ninodes && 0 <= k <= 12
    ensures var p, b, o := Dinode(g, disk, i), disk[g.inodestart + i / 8], i % 8 * 64;
            && p.kind == Short(Low(b[o], b[o + 1])) && p.major == Short(Low(b[o + 2], b[o + 3]))
            && p.minor == Short(Low(b[o + 4], b[o + 5])) && p.nlink == Short(Low(b[o + 6], b[o + 7]))
            && p.size == Word(b, o + 8) && |p.addrs| == 13 && p.addrs[k] == Word(b, o + 12 + 4 * k)
  {
    var b, o := disk[g.inodestart + i / 8], i % 8 * 64;
    var t := InodeBytes(g, disk, i);
    assert forall x | 0 <= x < 64 :: t[x] == b[o + x];
    UnpackHeadAt(t);
    UnpackAddrAt(t, k);
  }

  lemma UnpackHeadAt(t: seq<byte>)
    requires |t| == 64
    ensures var p := Unpack(t);
            && p.kind == Short(Low(t[0], t[1])) && p.major == Short(Low(t[2], t[3]))
            && p.minor == Short(Low(t[4], t[5])) && p.nlink == Short(Low(t[6], t[7]))
            && p.size == Low(t[8], t[9]) + 65536 * Low(t[10], t[11])
  {
    ShortAt(t[..2]);
    ShortAt(t[2..4]);
    ShortAt(t[4..6]);
    ShortAt(t[6..8]);
    WordAt(t[8..12]);
  }

  lemma UnpackAddrAt(t: seq<byte>, k: int)
    requires |t| == 64 && 0 <= k <= 12
    ensures |Unpack(t).addrs| == 13
    ensures var o := 12 + 4 * k;
            Unpack(t).addrs[k] == Low(t[o], t[o + 1]) + 65536 * Low(t[o + 2], t[o + 3])
  {
    TailWord(t, 4 * k);
  }

  lemma TailWord(t: seq<byte>, a: int)
    requires |t| == 64 && 0 <= a <= 48
    ensures Load(t[12..][a..a + 4]) == Low(t[12 + a], t[13 + a]) + 65536 * Low(t[14 + a], t[15 + a])
  {
    WordAt(t[12..][a..a + 4]);
  }

  /** The little-endian word at offset o. */
  function Word(b: Block, o: int): int
    requires 0 <= o <= 508
  {
    Low(b[o], b[o + 1]) + 65536 * Low(b[o + 2], b[o + 3])
  }

  function Low(x: int, y: int): int
  {
    x + 256 * y
  }

  lemma ShortAt(t: seq<byte>)
    requires |t| == 2
    ensures Load(t) == Low(t[0], t[1])
  {
    assert t[1..][1..] == [];
    assert Load(t[1..]) == Low(t[1], Load([]));
  }

  lemma WordAt(t: seq<byte>)
    requires |t| == 4
    ensures Load(t) == Low(t[0], t[1]) + 65536 * Low(t[2], t[3])
  {
    var u := t[2..];
    ShortAt(u);
    assert t[1..][1..] == u;
    assert Load(t[1..]) == Low(t[1], Load(u));
  }

  /** a[k] of an indirect block is its k-th little-endian word. */
  lemma EntryPlace(b: Block, k: int)
    requires 0 <= k < 128
    ensures Entry(b, k) == Word(b, 4 * k)
  {
    WordAt(b[4 * k..4 * k + 4]);
  }

  /** What is written for one inode is read back for it, and no other inode changes. */
  lemma InodeRoundTrip(g: Super, disk: seq<Block>, i: int, p: Inode, j: int)
    requires Formatted(g) && |disk| == g.size && 0 <= i < g.ninodes && 0 <= j < g.ninodes && Storable(p)
    ensures Dinode(g, WithInode(g, disk, i, p), j) == if j == i then p else Dinode(g, disk, j)
  {
    UnpackPack(p);
    if i == j {
      BytesSame(g, disk, i, Pack(p));
    } else {
      BytesElse(g, disk, i, Pack(p), j);
    }
  }
}
