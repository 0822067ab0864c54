/** How many blocks a write needs and how many are free: the slots of an inode that a range
    of file blocks uses, against the clear bits of the bitmap.  balloc() panics when it finds
    no clear bit, so these counts say exactly when writei() does. */
module FsRoom {
  import opened Fs
  import opened Counting

  ghost function FreeBits(bits: seq<bool>): set<nat> { set b | 0 <= b < |bits| && !bits[b] }

  /** The slots of inode i that hold a block number. */
  ghost function InUse(v: Vol, i: nat): set<nat>
    requires i < |v.inos| && |v.inos[i].addrs| == NDIRECT + 1
  {
    set k | 0 <= k < SLOTS && Slot(v.bl, v.inos[i], k) != 0
  }

  /** Slot k holds one of the file's blocks lo up to hi, or the indirect block they need. */
  predicate Serves(k: nat, lo: nat, hi: nat) {
    if k == NDIRECT then lo < hi && hi > NDIRECT else lo <= (if k < NDIRECT then k else k - 1) < hi
  }

  ghost function Slots(lo: nat, hi: nat): set<nat> { set k | 0 <= k < SLOTS && Serves(k, lo, hi) }

  /** The blocks lo up to hi of file i need more new blocks than are free. */
  ghost predicate Short(v: Vol, i: nat, lo: nat, hi: nat)
    requires i < |v.inos| && |v.inos[i].addrs| == NDIRECT + 1
  {
    |FreeBits(v.bits)| < |Slots(lo, hi) - InUse(v, i)|
  }

  /** From v to v' exactly the slots ks of inode i have been filled, each with a free block. */
  ghost predicate Filled(v: Vol, v': Vol, i: nat, ks: set<nat>) {
    && i < |v.inos| && i < |v'.inos| && |v.inos[i].addrs| == NDIRECT + 1 && |v'.inos[i].addrs| == NDIRECT + 1
    && InUse(v', i) == InUse(v, i) + ks
    && |FreeBits(v.bits)| == |FreeBits(v'.bits)| + |ks - InUse(v, i)|
  }

  lemma FilledNone(v: Vol, i: nat)
    requires i < |v.inos| && |v.inos[i].addrs| == NDIRECT + 1
    ensures Filled(v, v, i, {})
  {
    assert {} - InUse(v, i) == {};
  }

  /** A change that fills no slot and marks no block. */
  lemma FilledSame(v: Vol, v1: Vol, v2: Vol, i: nat, ks: set<nat>)
    requires Filled(v, v1, i, ks) && i < |v2.inos| && |v2.inos[i].addrs| == NDIRECT + 1 && v2.bits == v1.bits
    requires forall k :: 0 <= k < SLOTS ==> (Slot(v2.bl, v2.inos[i], k) != 0 <==> Slot(v1.bl, v1.inos[i], k) != 0)
    ensures Filled(v, v2, i, ks)
  {
    assert InUse(v2, i) == InUse(v1, i);
  }

  lemma FilledOne(v: Vol, v': Vol, i: nat, k: nat, r: nat)
    requires i < |v.inos| && i < |v'.inos| && |v.inos[i].addrs| == NDIRECT + 1 && |v'.inos[i].addrs| == NDIRECT + 1
    requires k < SLOTS && Slot(v.bl, v.inos[i], k) == 0 && r < |v.bits| && !v.bits[r] && v'.bits == v.bits[r := true]
    requires forall l :: 0 <= l < SLOTS ==>
               (Slot(v'.bl, v'.inos[i], l) != 0 <==> l == k || Slot(v.bl, v.inos[i], l) != 0)
    ensures Filled(v, v', i, {k})
  {
    assert FreeBits(v.bits) == FreeBits(v'.bits) + {r};
    assert {k} - InUse(v, i) == {k};
    assert InUse(v', i) == InUse(v, i) + {k};
  }

  lemma FilledMore(v: Vol, v1: Vol, v2: Vol, i: nat, ks: set<nat>, ls: set<nat>)
    requires Filled(v, v1, i, ks) && Filled(v1, v2, i, ls)
    ensures Filled(v, v2, i, ks + ls)
  {
    var a, b := ks - InUse(v, i), ls - InUse(v1, i);
    assert (ks + ls) - InUse(v, i) == a + b && a !! b;
  }

  lemma SlotsJoin(lo: nat, mid: nat, lo': nat, hi: nat)
    requires lo <= lo' <= mid <= hi
    ensures Slots(lo, mid) + Slots(lo', hi) == Slots(lo, hi)
  {
  }

  /** A range that has been filled was not short of blocks. */
  lemma FilledEnough(v: Vol, v': Vol, i: nat, lo: nat, hi: nat)
    requires Filled(v, v', i, Slots(lo, hi))
    ensures !Short(v, i, lo, hi)
  {
  }

  /** What is short after a part has been filled was short from the start. */
  lemma FilledShort(v: Vol, v1: Vol, i: nat, lo: nat, mid: nat, lo': nat, hi: nat, end: nat)
    requires Filled(v, v1, i, Slots(lo, mid)) && lo <= lo' <= mid <= hi <= end && Short(v1, i, lo', hi)
    ensures Short(v, i, lo, end)
  {
    SlotsJoin(lo, mid, lo', hi);
    var a, b := Slots(lo, mid) - InUse(v, i), Slots(lo', hi) - InUse(v1, i);
    assert Slots(lo, hi) - InUse(v, i) == a + b && a !! b;
    SlotsJoin(lo, hi, lo, end);
    Fewer(a + b, Slots(lo, end) - InUse(v, i));
  }
}
