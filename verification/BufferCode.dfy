/** kernel/bio.c as one thread executes it: the loops over the rings, with the ring
    contents as specification.  The sleep locks and bucket locks are in module
    BufferCache; here they are free whenever asked for. */
module BufferCode {
  import opened BufferRings
  import opened BufferCache

  /** Some buffer outside bucket home is unreferenced. */
  ghost predicate HasVictim(rs: Rings, refcnt: seq<nat>, home: nat) {
    exists j, k :: 0 <= j < NBUCKETS && j != home && 0 <= k < |rs[j]| && rs[j][k] < |refcnt| && refcnt[rs[j][k]] == 0
  }

  /** Every buffer of ring i is referenced. */
  ghost predicate AllBusy(rs: Rings, refcnt: seq<nat>, i: nat)
    requires i < NBUCKETS
  {
    forall k :: 0 <= k < |rs[i]| ==> rs[i][k] < |refcnt| && refcnt[rs[i][k]] != 0
  }

  /** The buckets from home + 1 up to, not including, home + m have been searched. */
  ghost predicate Searched(rs: Rings, refcnt: seq<nat>, home: nat, m: nat) {
    forall x :: 1 <= x < m ==> AllBusy(rs, refcnt, Beyond(home, x))
  }

  /** The bucket x places after home, wrapping round. */
  function Beyond(home: nat, x: nat): (r: nat)
    ensures r < NBUCKETS
  {
    GetIndex(home + x)
  }

  /** Buffer k of the bucket m places after home is the victim: the earlier buckets have
      none, and in its own bucket the less recently used buffers are all referenced. */
  ghost predicate Victim(rs: Rings, refcnt: seq<nat>, home: nat, m: nat, k: nat) {
    && 1 <= m && Searched(rs, refcnt, home, m) && k < |rs[Beyond(home, m)]|
    && (forall l :: k < l < |rs[Beyond(home, m)]| ==>
          rs[Beyond(home, m)][l] < |refcnt| && refcnt[rs[Beyond(home, m)][l]] != 0)
  }

  /** The rings after the victim b has moved to the front of bucket home. */
  ghost predicate Moved(rs: Rings, refcnt: seq<nat>, home: nat, b: nat, rs': Rings)
    requires home < NBUCKETS
  {
    exists m: nat, k: nat :: Victim(rs, refcnt, home, m, k) && rs[Beyond(home, m)][k] == b
      && rs' == rs[Beyond(home, m) := Remove(rs[Beyond(home, m)], k)][home := [b] + rs[home]]
  }

  lemma MovedBy(rs: Rings, refcnt: seq<nat>, home: nat, m: nat, at: nat, b: nat, k: nat, rs': Rings)
    requires home < NBUCKETS && 1 <= m && Searched(rs, refcnt, home, m) && at == Beyond(home, m) && at < NBUCKETS
    requires k < |rs[at]| && rs[at][k] == b
    requires forall l :: k < l < |rs[at]| ==> rs[at][l] < |refcnt| && refcnt[rs[at][l]] != 0
    requires rs' == rs[at := Remove(rs[at], k)][home := [b] + rs[home]]
    ensures Moved(rs, refcnt, home, b, rs')
  {
    assert Victim(rs, refcnt, home, m, k);
  }

  lemma SearchedAll(rs: Rings, refcnt: seq<nat>, home: nat)
    requires home < NBUCKETS && Searched(rs, refcnt, home, NBUCKETS)
    ensures !HasVictim(rs, refcnt, home)
  {
    forall j | 0 <= j < NBUCKETS && j != home
      ensures AllBusy(rs, refcnt, j)
    {
      var x := if j > home then j - home else j + NBUCKETS - home;
      assert Beyond(home, x) == j;
    }
    forall j, k | 0 <= j < NBUCKETS && j != home && 0 <= k < |rs[j]| && rs[j][k] < |refcnt|
      ensures refcnt[rs[j][k]] != 0
    {
      assert AllBusy(rs, refcnt, j);
    }
  }

  lemma SearchStarts(rs: Rings, refcnt: seq<nat>, id: Id)
    ensures GetIndex(id.blockno + 1) == Beyond(Home(id), 1) && Home(id) < NBUCKETS && Beyond(Home(id), 1) < NBUCKETS
    ensures Beyond(Home(id), 1) != Home(id) && Searched(rs, refcnt, Home(id), 1)
  {
  }

  lemma VictimFound(rs: Rings, refcnt: seq<nat>, home: nat, j: nat, k: nat)
    requires j < NBUCKETS && j != home && k < |rs[j]| && rs[j][k] < |refcnt| && refcnt[rs[j][k]] == 0
    ensures HasVictim(rs, refcnt, home)
  {
  }

  lemma SearchedMore(rs: Rings, refcnt: seq<nat>, home: nat, m: nat)
    requires home < NBUCKETS && 1 <= m <= NBUCKETS && Beyond(home, m) != home
    requires Searched(rs, refcnt, home, m) && AllBusy(rs, refcnt, Beyond(home, m))
    ensures m < NBUCKETS && Searched(rs, refcnt, home, m + 1) && GetIndex(Beyond(home, m) + 1) == Beyond(home, m + 1)
    ensures Beyond(home, m + 1) < NBUCKETS && (Beyond(home, m + 1) == home ==> m + 1 == NBUCKETS)
  {
    BeyondStep(home, m);
    BeyondStep(home, m + 1);
    hide Beyond;
    hide GetIndex;
  }

  lemma BeyondStep(home: nat, m: nat)
    requires home < NBUCKETS && 1 <= m <= NBUCKETS + 1
    ensures Beyond(home, m) == home ==> m == NBUCKETS
    ensures m == NBUCKETS ==> Beyond(home, m) == home
    ensures GetIndex(Beyond(home, m) + 1) == Beyond(home, m + 1)
  {
    assert Beyond(home, m) == if home + m < NBUCKETS then home + m
                              else if home + m < 2 * NBUCKETS then home + m - NBUCKETS else home + m - 2 * NBUCKETS;
  }

  /** The node that comes next in the ring of bucket i, and the one before. */
  lemma RingNode(lk: Links, bucket: seq<nat>, rs: Rings, i: nat, k: nat)
    requires RingsOk(lk, bucket, rs) && i < NBUCKETS && k <= |rs[i]|
    ensures lk.Valid(|bucket| + NBUCKETS) && At(|bucket| + i, rs[i], k) < |bucket| + NBUCKETS
    ensures At(|bucket| + i, rs[i], k + 1) < |bucket| + NBUCKETS
    ensures lk.next[At(|bucket| + i, rs[i], k)] == At(|bucket| + i, rs[i], k + 1)
    ensures lk.prev[At(|bucket| + i, rs[i], k + 1)] == At(|bucket| + i, rs[i], k)
    ensures k < |rs[i]| ==> rs[i][k] < |bucket|
  {
    assert RingOk(lk, |bucket| + i, rs[i]) && Sorted(bucket, rs, i);
    hide RingsOk;
    assert Linked(lk, |bucket| + i, rs[i], k);
  }

  class Cache {
    var ids: seq<Id>
    var refcnt: seq<nat>
    var links: Links
    ghost var rs: Rings

    ghost predicate Valid()
      reads this
    {
      && |refcnt| == |ids|
      && RingsOk(links, Bucket(ids), rs)
      && (forall b :: 0 <= b < |ids| ==> b in rs[Home(ids[b])])
    }

    /** binit(): the heads first, then each buffer pushed onto bucket 0. */
    constructor (nbuf: nat)
      ensures Valid() && |ids| == nbuf && rs == BinitRings(nbuf)
      ensures forall b :: 0 <= b < nbuf ==> ids[b] == Id(0, 0) && refcnt[b] == 0
    {
      ids := seq(nbuf, b => Id(0, 0));
      refcnt := seq(nbuf, b => 0);
      links := NoLinks(nbuf);
      rs := BinitRings(nbuf);
      new;
      var b := 0;
      while b < nbuf
        invariant 0 <= b <= nbuf
        invariant links == BinitLinks(nbuf, b)
        invariant ids == seq(nbuf, c => Id(0, 0)) && refcnt == seq(nbuf, c => 0) && rs == BinitRings(nbuf)
      {
        links := PushFront(links, nbuf, b);
        b := b + 1;
      }
      BinitOk(nbuf, nbuf);
      assert Bucket(ids) == AllZero(nbuf);
      forall b | 0 <= b < nbuf
        ensures b in rs[0]
      {
        assert rs[0][nbuf - 1 - b] == b;
      }
    }

    /** bget()'s first loop: the first buffer of the bucket that holds the block. */
    method Lookup(id: Id) returns (b: nat, found: bool)
      requires Valid()
      ensures found ==> b < |ids| && ids[b] == id && b in rs[Home(id)]
      ensures !found ==> forall c :: 0 <= c < |ids| ==> ids[c] != id
    {
      hide RingsOk;
      ghost var i := Home(id);
      RingNode(links, Bucket(ids), rs, i, 0);
      ghost var k := 1;
      b := links.next[|ids| + Home(id)];
      while b != |ids| + Home(id)
        invariant 1 <= k <= |rs[i]| + 1 && b == At(|ids| + i, rs[i], k)
        invariant Misses(ids, rs[i], id, k - 1)
        decreases |rs[i]| + 1 - k
      {
        RingNode(links, Bucket(ids), rs, i, k - 1);
        if k <= |rs[i]| {
          RingNode(links, Bucket(ids), rs, i, k);
        }
        if ids[b] == id {
          return b, true;
        }
        b := links.next[b];
        k := k + 1;
      }
      if k <= |rs[i]| {
        RingNode(links, Bucket(ids), rs, i, k - 1);
      }
      found := false;
    }

    /** One bucket of bget()'s second loop: its least recently used unreferenced buffer. */
    method FindVictim(at: nat) returns (b: nat, found: bool, ghost k: nat)
      requires Valid() && at < NBUCKETS
      ensures found ==> k < |rs[at]| && rs[at][k] == b < |ids| && refcnt[b] == 0
      ensures found ==> forall l :: k < l < |rs[at]| ==> rs[at][l] < |ids| && refcnt[rs[at][l]] != 0
      ensures !found ==> AllBusy(rs, refcnt, at)
    {
      hide RingsOk;
      RingNode(links, Bucket(ids), rs, at, |rs[at]|);
      k := |rs[at]|;
      b := links.prev[|ids| + at];
      while b != |ids| + at
        invariant 0 <= k <= |rs[at]| && b == At(|ids| + at, rs[at], k)
        invariant forall l :: k <= l < |rs[at]| ==> rs[at][l] < |ids| && refcnt[rs[at][l]] != 0
        decreases k
      {
        RingNode(links, Bucket(ids), rs, at, k - 1);
        if refcnt[b] == 0 {
          found := true;
          k := k - 1;
          return;
        }
        b := links.prev[b];
        k := k - 1;
      }
      if k >= 1 {
        RingNode(links, Bucket(ids), rs, at, k - 1);
      }
      found := false;
    }

    /** bget(): the cached buffer with one more reference, or a recycled one.  It fails
        exactly when the block is not cached and no buffer of another bucket is free. */
    method Bget(id: Id) returns (b: nat, ok: bool)
      requires Valid()
      modifies this
      ensures Valid() && |ids| == |old(ids)|
      ensures ok <==>
                (exists c :: 0 <= c < |old(ids)| && old(ids)[c] == id) || HasVictim(old(rs), old(refcnt), Home(id))
      ensures !ok ==> ids == old(ids) && refcnt == old(refcnt) && rs == old(rs) && links == old(links)
      ensures ok ==> b < |ids| && ids[b] == id && ids == old(ids)[b := id]
      ensures ok && old(ids)[b] == id ==> refcnt == old(refcnt)[b := old(refcnt)[b] + 1] && rs == old(rs)
      ensures ok && old(ids)[b] != id ==>
                && old(refcnt)[b] == 0 && refcnt == old(refcnt)[b := 1]
                && Home(old(ids)[b]) != Home(id) && Moved(old(rs), old(refcnt), Home(id), b, rs)
    {
      var found;
      b, found := Lookup(id);
      if found {
        refcnt := refcnt[b := refcnt[b] + 1];
        assert ids[b := id] == ids;
        return b, true;
      }
      b, ok := StealOne(id);
    }

    /** bget()'s second loop: the buckets after the block's own, in order, wrapping round. */
    method StealOne(id: Id) returns (b: nat, ok: bool)
      requires Valid()
      modifies this
      ensures Valid() && |ids| == |old(ids)|
      ensures ok <==> HasVictim(old(rs), old(refcnt), Home(id))
      ensures !ok ==> ids == old(ids) && refcnt == old(refcnt) && rs == old(rs) && links == old(links)
      ensures ok ==>
                && b < |ids| && ids == old(ids)[b := id]
                && old(refcnt)[b] == 0 && refcnt == old(refcnt)[b := 1]
                && Home(old(ids)[b]) != Home(id) && Moved(old(rs), old(refcnt), Home(id), b, rs)
    {
      hide RingsOk;
      hide HasVictim;
      hide Searched;
      hide Beyond;
      hide Moved;
      var home := Home(id);
      var next := GetIndex(id.blockno + 1);
      SearchStarts(rs, refcnt, id);
      ghost var m: nat := 1;
      var found;
      while next != home
        invariant unchanged(this)
        invariant 1 <= m <= NBUCKETS && next == Beyond(home, m) && next < NBUCKETS && (next == home ==> m == NBUCKETS)
        invariant Searched(rs, refcnt, home, m)
        decreases NBUCKETS - m
      {
        ghost var k;
        b, found, k := FindVictim(next);
        if found {
          VictimFound(rs, refcnt, home, next, k);
          ghost var rs0, refcnt0 := rs, refcnt;
          Recycle(id, b, next, k);
          MovedBy(rs0, refcnt0, home, m, next, b, k, rs);
          return b, true;
        }
        SearchedMore(rs, refcnt, home, m);
        next := GetIndex(next + 1);
        m := m + 1;
      }
      SearchedAll(rs, refcnt, home);
      b, ok := 0, false;
    }

    /** Renames the victim and moves it from ring at to the front of its new ring. */
    method Recycle(id: Id, b: nat, at: nat, ghost k: nat)
      requires Valid() && at < NBUCKETS && at != Home(id) && k < |rs[at]| && rs[at][k] == b < |ids|
      modifies this
      ensures Valid() && ids == old(ids)[b := id] && refcnt == old(refcnt)[b := 1]
      ensures at == Home(old(ids)[b])
      ensures rs == old(rs)[at := Remove(old(rs)[at], k)][Home(id) := [b] + old(rs)[Home(id)]]
    {
      assert Sorted(Bucket(ids), rs, at) && Sorted(Bucket(ids), rs, Home(id));
      UnlinkRings(links, Bucket(ids), rs, at, k, Home(id));
      ghost var mid := rs[at := Remove(rs[at], k)];
      ids := ids[b := id];
      refcnt := refcnt[b := 1];
      assert Bucket(ids) == Bucket(old(ids))[b := Home(id)];
      links := Unlink(links, b);
      PushRings(links, Bucket(ids), mid, b);
      links := PushFront(links, |ids| + Home(id), b);
      RemoveMembers(rs[at], k);
      rs := mid[Home(id) := [b] + mid[Home(id)]];
    }

    /** brelse(): one reference less; the last one moves the buffer to the front. */
    method Brelse(b: nat)
      requires Valid() && b < |ids| && refcnt[b] > 0
      modifies this`refcnt, this`links, this`rs
      ensures Valid() && refcnt == old(refcnt)[b := old(refcnt)[b] - 1]
      ensures old(refcnt)[b] > 1 ==> links == old(links) && rs == old(rs)
      ensures old(refcnt)[b] == 1 ==>
                && (exists k :: 0 <= k < |old(rs)[Home(ids[b])]| && old(rs)[Home(ids[b])][k] == b
                                && rs == old(rs)[Home(ids[b]) := [b] + Remove(old(rs)[Home(ids[b])], k)])
    {
      var i := Home(ids[b]);
      refcnt := refcnt[b := refcnt[b] - 1];
      if refcnt[b] == 0 {
        ghost var k :| 0 <= k < |rs[i]| && rs[i][k] == b;
        ghost var rs' := RelinkRings(links, Bucket(ids), rs, i, k);
        links := Unlink(links, b);
        links := PushFront(links, |ids| + i, b);
        RemoveMembers(rs[i], k);
        rs := rs';
      }
    }
  }
}
