/** The doubly linked rings of kernel/bio.c.  Nodes are numbers: buffers 0..nbuf-1, then
    one head per bucket.  A ring is described by the sequence of its buffers, most
    recently used first; the pointers are tied to it node by node. */
module BufferRings {

  const NBUCKETS := 53

  /** The hash function of the cache. */
  function GetIndex(blockno: nat): nat { blockno % NBUCKETS }

  datatype Links = Links(next: seq<nat>, prev: seq<nat>) {
    predicate Valid(n: nat) { |next| == n && |prev| == n }
  }

  /** Node k of the ring walked from its head; the head itself at 0 and |ring| + 1. */
  function At(h: nat, ring: seq<nat>, k: int): nat {
    if 1 <= k <= |ring| then ring[k - 1] else h
  }

  ghost predicate RingOk(lk: Links, h: nat, ring: seq<nat>) {
    && h < |lk.next| == |lk.prev|
    && (forall k :: 0 <= k < |ring| ==> ring[k] < |lk.next| && ring[k] != h)
    && (forall j, k :: 0 <= j < k < |ring| ==> ring[j] != ring[k])
    && (forall k :: 0 <= k <= |ring| ==> Linked(lk, h, ring, k))
  }

  /** Node k and node k + 1 point at each other. */
  ghost predicate Linked(lk: Links, h: nat, ring: seq<nat>, k: nat)
    requires k <= |ring| && h < |lk.next| == |lk.prev|
    requires forall i :: 0 <= i < |ring| ==> ring[i] < |lk.next|
  {
    && lk.next[At(h, ring, k)] == At(h, ring, k + 1)
    && lk.prev[At(h, ring, k + 1)] == At(h, ring, k)
  }

  /** b->next->prev = b->prev; b->prev->next = b->next. */
  function Unlink(lk: Links, b: nat): Links
    requires lk.Valid(|lk.next|) && b < |lk.next|
    requires lk.next[b] < |lk.next| && lk.prev[b] < |lk.next|
  {
    var n, p := lk.next[b], lk.prev[b];
    Links(lk.next[p := n], lk.prev[n := p])
  }

  /** b->next = h->next; b->prev = h; h->next->prev = b; h->next = b. */
  function PushFront(lk: Links, h: nat, b: nat): Links
    requires lk.Valid(|lk.next|) && b < |lk.next| && h < |lk.next| && lk.next[h] < |lk.next|
    requires b != h
  {
    var first := lk.next[h];
    Links(lk.next[b := first][h := b], lk.prev[b := h][first := b])
  }

  function Remove(ring: seq<nat>, k: nat): seq<nat>
    requires k < |ring|
  {
    ring[..k] + ring[k + 1..]
  }

  lemma NeighboursOf(lk: Links, h: nat, ring: seq<nat>, k: nat)
    requires RingOk(lk, h, ring) && k < |ring|
    ensures lk.next[ring[k]] == At(h, ring, k + 2) && lk.prev[ring[k]] == At(h, ring, k)
    ensures lk.next[h] == At(h, ring, 1) && lk.prev[h] == At(h, ring, |ring|)
  {
    assert Linked(lk, h, ring, k) && Linked(lk, h, ring, k + 1);
    assert Linked(lk, h, ring, 0) && Linked(lk, h, ring, |ring|);
  }

  /** Unlinking takes exactly one buffer out of its ring. */
  lemma UnlinkRing(lk: Links, h: nat, ring: seq<nat>, k: nat)
    requires RingOk(lk, h, ring) && k < |ring|
    ensures lk.next[ring[k]] < |lk.next| && lk.prev[ring[k]] < |lk.next|
    ensures RingOk(Unlink(lk, ring[k]), h, Remove(ring, k))
  {
    NeighboursOf(lk, h, ring, k);
    var lk', ring' := Unlink(lk, ring[k]), Remove(ring, k);
    forall i | 0 <= i <= |ring'|
      ensures Linked(lk', h, ring', i)
    {
      var j := if i <= k then i else i + 1;
      assert At(h, ring', i) == At(h, ring, j);
      assert At(h, ring', i + 1) == At(h, ring, if i < k then i + 1 else i + 2);
      assert Linked(lk, h, ring, j);
    }
  }

  /** Pushing puts a buffer that was in no ring at the front of this one. */
  lemma PushRing(lk: Links, h: nat, ring: seq<nat>, b: nat)
    requires RingOk(lk, h, ring) && b < |lk.next| && b != h && b !in ring
    ensures lk.next[h] < |lk.next|
    ensures RingOk(PushFront(lk, h, b), h, [b] + ring)
  {
    assert Linked(lk, h, ring, 0);
    var lk', ring' := PushFront(lk, h, b), [b] + ring;
    forall i | 0 <= i <= |ring'|
      ensures Linked(lk', h, ring', i)
    {
      if i >= 1 {
        assert Linked(lk, h, ring, i - 1);
        assert At(h, ring', i + 1) == At(h, ring, i);
        assert i >= 2 ==> At(h, ring', i) == At(h, ring, i - 1);
      }
    }
  }

  /** A ring none of whose nodes was written is unchanged. */
  lemma RingFrame(lk: Links, lk': Links, h: nat, ring: seq<nat>)
    requires RingOk(lk, h, ring) && lk'.Valid(|lk.next|)
    requires lk'.next[h] == lk.next[h] && lk'.prev[h] == lk.prev[h]
    requires forall k :: 0 <= k < |ring| ==>
               lk'.next[ring[k]] == lk.next[ring[k]] && lk'.prev[ring[k]] == lk.prev[ring[k]]
    ensures RingOk(lk', h, ring)
  {
    forall k | 0 <= k <= |ring|
      ensures Linked(lk', h, ring, k)
    {
      assert Linked(lk, h, ring, k);
    }
  }

  // ---------------------------------------------------------------- all the rings

  type Rings = rs: seq<seq<nat>> | |rs| == NBUCKETS witness seq(NBUCKETS, i => [])

  /** The buffers of ring i are buffers that belong in bucket i. */
  ghost predicate Sorted(bucket: seq<nat>, rs: Rings, i: nat)
    requires i < NBUCKETS
  {
    forall k :: 0 <= k < |rs[i]| ==> rs[i][k] < |bucket| && bucket[rs[i][k]] == i
  }

  /** Every bucket's pointers describe its ring, and a buffer is in no ring but that of
      the bucket it belongs in. */
  ghost predicate RingsOk(lk: Links, bucket: seq<nat>, rs: Rings) {
    && lk.Valid(|bucket| + NBUCKETS)
    && forall i :: 0 <= i < NBUCKETS ==> RingOk(lk, |bucket| + i, rs[i]) && Sorted(bucket, rs, i)
  }

  /** Pointers changed only at nodes of bucket i: every other ring is as it was. */
  lemma OtherRing(lk: Links, lk': Links, bucket: seq<nat>, rs: Rings, i: nat, j: nat, p: nat, q: nat, b: nat)
    requires i < NBUCKETS && j < NBUCKETS && i != j
    requires RingOk(lk, |bucket| + j, rs[j]) && Sorted(bucket, rs, j) && lk'.Valid(|lk.next|)
    requires p == |bucket| + i || (p < |bucket| && bucket[p] == i)
    requires q == |bucket| + i || (q < |bucket| && bucket[q] == i)
    requires b < |bucket| && bucket[b] == i
    requires forall x :: 0 <= x < |lk.next| && x != p && x != q && x != b && x != |bucket| + i
               ==> lk'.next[x] == lk.next[x] && lk'.prev[x] == lk.prev[x]
    ensures RingOk(lk', |bucket| + j, rs[j])
  {
    RingFrame(lk, lk', |bucket| + j, rs[j]);
  }

  /** A node of ring i is its head or a buffer of bucket i. */
  lemma NodeOf(bucket: seq<nat>, rs: Rings, i: nat, k: int)
    requires i < NBUCKETS && Sorted(bucket, rs, i)
    ensures var x := At(|bucket| + i, rs[i], k); x == |bucket| + i || (x < |bucket| && bucket[x] == i)
  {
  }

  lemma UnlinkSorted(lk: Links, bucket: seq<nat>, rs: Rings, i: nat, k: nat, to: nat, j: nat)
    requires i < NBUCKETS && k < |rs[i]| && j < NBUCKETS && RingOk(lk, |bucket| + i, rs[i])
    requires Sorted(bucket, rs, i) && Sorted(bucket, rs, j)
    ensures rs[i][k] < |bucket| && Sorted(bucket[rs[i][k] := to], rs[i := Remove(rs[i], k)], j)
  {
    hide Linked;
  }

  lemma UnlinkFrame(lk: Links, b: nat)
    requires lk.Valid(|lk.next|) && b < |lk.next| && lk.next[b] < |lk.next| && lk.prev[b] < |lk.next|
    ensures Unlink(lk, b).Valid(|lk.next|)
    ensures forall x :: 0 <= x < |lk.next| && x != lk.prev[b] && x != lk.next[b] ==>
              Unlink(lk, b).next[x] == lk.next[x] && Unlink(lk, b).prev[x] == lk.prev[x]
  {
  }

  lemma PushFrame(lk: Links, h: nat, b: nat)
    requires lk.Valid(|lk.next|) && b < |lk.next| && h < |lk.next| && lk.next[h] < |lk.next| && b != h
    ensures PushFront(lk, h, b).Valid(|lk.next|)
    ensures forall x :: 0 <= x < |lk.next| && x != h && x != lk.next[h] && x != b ==>
              PushFront(lk, h, b).next[x] == lk.next[x] && PushFront(lk, h, b).prev[x] == lk.prev[x]
  {
  }

  lemma UnlinkOther(lk: Links, bucket: seq<nat>, rs: Rings, i: nat, k: nat, j: nat)
    requires i < NBUCKETS && k < |rs[i]| && lk.Valid(|bucket| + NBUCKETS) && j < NBUCKETS && j != i
    requires RingOk(lk, |bucket| + i, rs[i]) && Sorted(bucket, rs, i)
    requires RingOk(lk, |bucket| + j, rs[j]) && Sorted(bucket, rs, j)
    ensures lk.next[rs[i][k]] < |lk.next| && lk.prev[rs[i][k]] < |lk.next|
    ensures RingOk(Unlink(lk, rs[i][k]), |bucket| + j, rs[j])
  {
    hide At;
    hide Unlink;
    UnlinkRing(lk, |bucket| + i, rs[i], k);
    NeighboursOf(lk, |bucket| + i, rs[i], k);
    NodeOf(bucket, rs, i, k);
    NodeOf(bucket, rs, i, k + 2);
    var b := rs[i][k];
    assert b < |bucket| && bucket[b] == i;
    hide Sorted;
    hide RingOk;
    UnlinkFrame(lk, b);
    OtherRing(lk, Unlink(lk, b), bucket, rs, i, j, lk.prev[b], lk.next[b], b);
  }

  lemma UnlinkRingsAt(lk: Links, bucket: seq<nat>, rs: Rings, i: nat, k: nat, to: nat, j: nat)
    requires i < NBUCKETS && k < |rs[i]| && lk.Valid(|bucket| + NBUCKETS) && j < NBUCKETS
    requires RingOk(lk, |bucket| + i, rs[i]) && Sorted(bucket, rs, i)
    requires RingOk(lk, |bucket| + j, rs[j]) && Sorted(bucket, rs, j)
    ensures rs[i][k] < |bucket| && lk.next[rs[i][k]] < |lk.next| && lk.prev[rs[i][k]] < |lk.next|
    ensures RingOk(Unlink(lk, rs[i][k]), |bucket| + j, rs[i := Remove(rs[i], k)][j])
    ensures Sorted(bucket[rs[i][k] := to], rs[i := Remove(rs[i], k)], j)
  {
    hide RingOk;
    hide Sorted;
    hide Unlink;
    hide Remove;
    UnlinkSorted(lk, bucket, rs, i, k, to, j);
    UnlinkRing(lk, |bucket| + i, rs[i], k);
    if j != i {
      UnlinkOther(lk, bucket, rs, i, k, j);
    }
  }

  lemma OnceIn(lk: Links, h: nat, ring: seq<nat>, k: nat)
    requires RingOk(lk, h, ring) && k < |ring|
    ensures ring[k] !in Remove(ring, k)
  {
  }

  /** Taking buffer k out of ring i, to be sent to any bucket. */
  lemma UnlinkRings(lk: Links, bucket: seq<nat>, rs: Rings, i: nat, k: nat, to: nat)
    requires RingsOk(lk, bucket, rs) && i < NBUCKETS && k < |rs[i]|
    ensures rs[i][k] < |bucket| && lk.next[rs[i][k]] < |lk.next| && lk.prev[rs[i][k]] < |lk.next|
    ensures rs[i][k] !in Remove(rs[i], k)
    ensures RingsOk(Unlink(lk, rs[i][k]), bucket[rs[i][k] := to], rs[i := Remove(rs[i], k)])
  {
    hide RingOk;
    hide Sorted;
    hide Remove;
    assert RingOk(lk, |bucket| + i, rs[i]) && Sorted(bucket, rs, i);
    OnceIn(lk, |bucket| + i, rs[i], k);
    UnlinkRingsAt(lk, bucket, rs, i, k, to, i);
    var rs', bucket' := rs[i := Remove(rs[i], k)], bucket[rs[i][k] := to];
    forall j | 0 <= j < NBUCKETS
      ensures RingOk(Unlink(lk, rs[i][k]), |bucket'| + j, rs'[j]) && Sorted(bucket', rs', j)
    {
      assert RingOk(lk, |bucket| + j, rs[j]) && Sorted(bucket, rs, j);
      UnlinkRingsAt(lk, bucket, rs, i, k, to, j);
    }
  }

  lemma NextOfHead(lk: Links, h: nat, ring: seq<nat>)
    requires RingOk(lk, h, ring)
    ensures h < |lk.next| && lk.next[h] == At(h, ring, 1)
  {
    assert Linked(lk, h, ring, 0);
  }

  lemma PushSorted(bucket: seq<nat>, rs: Rings, b: nat, j: nat)
    requires b < |bucket| && bucket[b] < NBUCKETS && j < NBUCKETS && Sorted(bucket, rs, j)
    ensures Sorted(bucket, rs[bucket[b] := [b] + rs[bucket[b]]], j)
  {
  }

  lemma PushOther(lk: Links, bucket: seq<nat>, rs: Rings, b: nat, j: nat)
    requires lk.Valid(|bucket| + NBUCKETS) && b < |bucket| && bucket[b] < NBUCKETS && j < NBUCKETS && j != bucket[b]
    requires RingOk(lk, |bucket| + bucket[b], rs[bucket[b]]) && Sorted(bucket, rs, bucket[b])
    requires RingOk(lk, |bucket| + j, rs[j]) && Sorted(bucket, rs, j)
    ensures lk.next[|bucket| + bucket[b]] < |lk.next|
    ensures RingOk(PushFront(lk, |bucket| + bucket[b], b), |bucket| + j, rs[j])
  {
    hide PushFront;
    hide RingOk;
    hide Sorted;
    hide At;
    var i := bucket[b];
    NextOfHead(lk, |bucket| + i, rs[i]);
    NodeOf(bucket, rs, i, 1);
    PushFrame(lk, |bucket| + i, b);
    OtherRing(lk, PushFront(lk, |bucket| + i, b), bucket, rs, i, j, lk.next[|bucket| + i], |bucket| + i, b);
  }

  lemma PushRingsAt(lk: Links, bucket: seq<nat>, rs: Rings, b: nat, j: nat)
    requires lk.Valid(|bucket| + NBUCKETS) && b < |bucket| && bucket[b] < NBUCKETS && j < NBUCKETS
    requires b !in rs[bucket[b]]
    requires RingOk(lk, |bucket| + bucket[b], rs[bucket[b]]) && Sorted(bucket, rs, bucket[b])
    requires RingOk(lk, |bucket| + j, rs[j]) && Sorted(bucket, rs, j)
    ensures lk.next[|bucket| + bucket[b]] < |lk.next|
    ensures var i := bucket[b]; var rs' := rs[i := [b] + rs[i]];
            RingOk(PushFront(lk, |bucket| + i, b), |bucket| + j, rs'[j]) && Sorted(bucket, rs', j)
  {
    hide PushFront;
    hide RingOk;
    hide Sorted;
    var i := bucket[b];
    PushRing(lk, |bucket| + i, rs[i], b);
    PushSorted(bucket, rs, b, j);
    if j != i {
      PushOther(lk, bucket, rs, b, j);
    }
  }

  /** Putting a buffer that is in no ring at the front of its bucket's ring. */
  lemma PushRings(lk: Links, bucket: seq<nat>, rs: Rings, b: nat)
    requires RingsOk(lk, bucket, rs) && b < |bucket| && bucket[b] < NBUCKETS
    requires b !in rs[bucket[b]]
    ensures lk.next[|bucket| + bucket[b]] < |lk.next|
    ensures var i := bucket[b]; RingsOk(PushFront(lk, |bucket| + i, b), bucket, rs[i := [b] + rs[i]])
  {
    var i := bucket[b];
    assert RingOk(lk, |bucket| + i, rs[i]) && Sorted(bucket, rs, i);
    PushRingsAt(lk, bucket, rs, b, i);
    var rs' := rs[i := [b] + rs[i]];
    forall j | 0 <= j < NBUCKETS
      ensures RingOk(PushFront(lk, |bucket| + i, b), |bucket| + j, rs'[j]) && Sorted(bucket, rs', j)
    {
      assert RingOk(lk, |bucket| + j, rs[j]) && Sorted(bucket, rs, j);
      PushRingsAt(lk, bucket, rs, b, j);
    }
  }

  /** Moving buffer k of ring i to the front of the same ring. */
  lemma RelinkRings(lk: Links, bucket: seq<nat>, rs: Rings, i: nat, k: nat) returns (rs': Rings)
    requires RingsOk(lk, bucket, rs) && i < NBUCKETS && k < |rs[i]|
    ensures var b := rs[i][k];
            && b < |bucket| && lk.next[b] < |lk.next| && lk.prev[b] < |lk.next|
            && Unlink(lk, b).next[|bucket| + i] < |lk.next|
            && rs' == rs[i := [b] + Remove(rs[i], k)]
            && RingsOk(PushFront(Unlink(lk, b), |bucket| + i, b), bucket, rs')
  {
    var b := rs[i][k];
    assert Sorted(bucket, rs, i);
    UnlinkRings(lk, bucket, rs, i, k, i);
    var mid := rs[i := Remove(rs[i], k)];
    assert bucket[b := i] == bucket;
    PushRings(Unlink(lk, b), bucket, mid, b);
    rs' := mid[i := [b] + mid[i]];
  }

  lemma RemoveMembers(ring: seq<nat>, k: nat)
    requires k < |ring|
    ensures forall c :: c in ring <==> c == ring[k] || c in Remove(ring, k)
  {
    assert ring == ring[..k] + [ring[k]] + ring[k + 1..];
  }

  // ---------------------------------------------------------------- binit

  /** All heads pointing at themselves; the buffers' pointers are still zero. */
  function NoLinks(n: nat): Links {
    Links(seq(n + NBUCKETS, x => if x < n then 0 else x), seq(n + NBUCKETS, x => if x < n then 0 else x))
  }

  /** binit() after its first k buffers. */
  function BinitLinks(n: nat, k: nat): (lk: Links)
    requires k <= n
    ensures lk.Valid(n + NBUCKETS)
    ensures forall x :: 0 <= x < n + NBUCKETS ==> lk.next[x] < n + NBUCKETS && lk.prev[x] < n + NBUCKETS
  {
    if k == 0 then NoLinks(n) else PushFront(BinitLinks(n, k - 1), n, k - 1)
  }

  function Descending(k: nat): (r: seq<nat>)
    ensures |r| == k && forall j :: 0 <= j < k ==> r[j] == k - 1 - j
  {
    seq(k, j requires 0 <= j < k => k - 1 - j)
  }

  function BinitRings(k: nat): (rs: Rings)
    ensures rs[0] == Descending(k) && forall i :: 0 < i < NBUCKETS ==> rs[i] == []
  {
    seq(NBUCKETS, i => if i == 0 then Descending(k) else [])
  }

  /** The buckets of the buffers: all are block 0. */
  function AllZero(n: nat): (r: seq<nat>)
    ensures |r| == n && forall b :: 0 <= b < n ==> r[b] == 0
  {
    seq(n, b => 0)
  }

  lemma BinitStart(n: nat)
    ensures RingsOk(NoLinks(n), AllZero(n), BinitRings(0))
  {
    var bucket := AllZero(n);
    forall i | 0 <= i < NBUCKETS
      ensures RingOk(NoLinks(n), n + i, BinitRings(0)[i]) && Sorted(bucket, BinitRings(0), i)
    {
      assert Linked(NoLinks(n), n + i, [], 0);
      assert BinitRings(0)[i] == [];
    }
  }

  /** binit() leaves every buffer in bucket 0, the last one first, the rest empty. */
  lemma {:induction false} BinitOk(n: nat, k: nat)
    requires k <= n
    ensures RingsOk(BinitLinks(n, k), AllZero(n), BinitRings(k))
  {
    hide RingsOk;
    hide PushFront;
    hide NoLinks;
    hide BinitRings;
    hide AllZero;
    if k == 0 {
      BinitStart(n);
    } else {
      BinitOk(n, k - 1);
      BinitPush(k);
      assert k - 1 !in BinitRings(k - 1)[0];
      PushRings(BinitLinks(n, k - 1), AllZero(n), BinitRings(k - 1), k - 1);
    }
  }

  lemma BinitPush(k: nat)
    requires k >= 1
    ensures BinitRings(k - 1)[0 := [k - 1] + BinitRings(k - 1)[0]] == BinitRings(k)
  {
    assert [k - 1] + Descending(k - 1) == Descending(k);
  }
}
