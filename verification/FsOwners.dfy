/** Who owns which disk block: the free bitmap against the block references of all inodes. */
module FsOwners {

  ghost predicate Refers(sl: seq<seq<int>>, b: int)
  {
    exists i, k :: 0 <= i < |sl| && 0 <= k < |sl[i]| && sl[i][k] == b
  }

  ghost predicate Single(sl: seq<seq<int>>)
  {
    forall i, k, j, l | 0 <= i < |sl| && 0 <= k < |sl[i]| && 0 <= j < |sl| && 0 <= l < |sl[j]| ::
      sl[i][k] == sl[j][l] != 0 ==> i == j && k == l
  }

  /** Row i holds the block numbers that inode i refers to, 0 standing for none.  No block
      is referred to twice; a bit is set exactly for the metadata, for the blocks in
      transit (extra), and for the blocks referred to. */
  ghost predicate Consistent(bits: seq<bool>, sl: seq<seq<int>>, extra: set<int>, data: int)
  {
    && 0 < data <= |bits| && Single(sl)
    && (forall i, k | 0 <= i < |sl| && 0 <= k < |sl[i]| ::
          sl[i][k] == 0 || (data <= sl[i][k] < |bits| && sl[i][k] !in extra))
    && (forall b | b in extra :: data <= b < |bits|)
    && (forall b | 0 <= b < |bits| :: bits[b] <==> b < data || b in extra || Refers(sl, b))
  }

  lemma Allocated(bits: seq<bool>, sl: seq<seq<int>>, extra: set<int>, data: int, b: int)
    requires Consistent(bits, sl, extra, data) && 0 <= b < |bits| && !bits[b]
    ensures data <= b && b !in extra && !Refers(sl, b)
    ensures Consistent(bits[b := true], sl, extra + {b}, data)
  {
  }

  lemma AttachSingle(sl: seq<seq<int>>, b: int, i: int, k: int)
    requires Single(sl) && !Refers(sl, b) && 0 <= i < |sl| && 0 <= k < |sl[i]| && sl[i][k] == 0
    ensures Single(sl[i := sl[i][k := b]])
  {
    var sl' := sl[i := sl[i][k := b]];
    forall i', k', j', l' | 0 <= i' < |sl'| && 0 <= k' < |sl'[i']| && 0 <= j' < |sl'| && 0 <= l' < |sl'[j']| &&
                            sl'[i'][k'] == sl'[j'][l'] != 0
      ensures i' == j' && k' == l'
    {
      assert (i' == i && k' == k) || sl'[i'][k'] == sl[i'][k'];
      assert (j' == i && l' == k) || sl'[j'][l'] == sl[j'][l'];
    }
  }

  lemma AttachRefers(sl: seq<seq<int>>, b: int, i: int, k: int, c: int)
    requires 0 <= i < |sl| && 0 <= k < |sl[i]| && sl[i][k] == 0 && c != 0
    ensures Refers(sl[i := sl[i][k := b]], c) <==> c == b || Refers(sl, c)
  {
    var sl' := sl[i := sl[i][k := b]];
    assert sl'[i][k] == b;
    if Refers(sl, c) {
      var j, l :| 0 <= j < |sl| && 0 <= l < |sl[j]| && sl[j][l] == c;
      assert sl'[j][l] == c;
    }
    if Refers(sl', c) && c != b {
      var j, l :| 0 <= j < |sl'| && 0 <= l < |sl'[j]| && sl'[j][l] == c;
      assert sl[j][l] == c;
    }
  }

  lemma Attached(bits: seq<bool>, sl: seq<seq<int>>, extra: set<int>, data: int, b: int, i: int, k: int)
    requires Consistent(bits, sl, extra, data) && b in extra
    requires 0 <= i < |sl| && 0 <= k < |sl[i]| && sl[i][k] == 0
    ensures Consistent(bits, sl[i := sl[i][k := b]], extra - {b}, data)
  {
    AttachSingle(sl, b, i, k);
    forall c | 0 < c ensures Refers(sl[i := sl[i][k := b]], c) <==> c == b || Refers(sl, c) {
      AttachRefers(sl, b, i, k, c);
    }
  }

  ghost predicate AllZero(r: seq<int>)
  {
    forall k | 0 <= k < |r| :: r[k] == 0
  }

  /** The blocks named from position t on. */
  ghost function Named(r: seq<int>, t: int): set<int>
    requires 0 <= t <= |r|
  {
    set k | t <= k < |r| && r[k] != 0 :: r[k]
  }

  lemma Detached(bits: seq<bool>, sl: seq<seq<int>>, data: int, i: int, z: seq<int>)
    requires Consistent(bits, sl, {}, data) && 0 <= i < |sl| && |z| == |sl[i]| && AllZero(z)
    ensures Consistent(bits, sl[i := z], Named(sl[i], 0), data)
  {
    var sl', r := sl[i := z], sl[i];
    forall c | data <= c < |bits| ensures Refers(sl, c) <==> c in Named(r, 0) || Refers(sl', c) {
      if Refers(sl, c) {
        var j, l :| 0 <= j < |sl| && 0 <= l < |sl[j]| && sl[j][l] == c;
        assert j != i ==> sl'[j][l] == c;
      }
      if c in Named(r, 0) {
        var k :| 0 <= k < |r| && r[k] == c;
        assert sl[i][k] == c;
      }
      if Refers(sl', c) {
        var j, l :| 0 <= j < |sl'| && 0 <= l < |sl'[j]| && sl'[j][l] == c;
        assert sl[j][l] == c;
      }
    }
    forall j, l | 0 <= j < |sl'| && 0 <= l < |sl'[j]| && sl'[j][l] != 0
      ensures data <= sl'[j][l] < |bits| && sl'[j][l] !in Named(r, 0)
    {
      assert sl[j][l] == sl'[j][l];
      assert forall k | 0 <= k < |r| && r[k] != 0 :: sl[i][k] != sl[j][l];
    }
  }

  lemma Freed(bits: seq<bool>, sl: seq<seq<int>>, extra: set<int>, data: int, b: int)
    requires Consistent(bits, sl, extra, data) && b in extra
    ensures bits[b] && Consistent(bits[b := false], sl, extra - {b}, data)
  {
  }
}
