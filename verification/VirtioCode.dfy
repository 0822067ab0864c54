/** The descriptor book-keeping of kernel/virtio_disk.c: alloc_desc(), free_desc(),
    alloc3_desc() and free_chain(), against the functions of module Virtio. */
module VirtioCode {
  import opened Options
  import opened Virtio

  class Table {
    var free: seq<bool>
    var desc: seq<Desc>

    ghost predicate Valid()
      reads this
    {
      |free| == NUM && |desc| == NUM
    }

    /** virtio_disk_init(): all descriptors are free. */
    constructor ()
      ensures Valid() && desc == seq(NUM, i => CLEAR) && forall i :: 0 <= i < NUM ==> free[i]
    {
      free := seq(NUM, i => true);
      desc := seq(NUM, i => CLEAR);
    }

    /** alloc_desc(): -1 if every descriptor is in use. */
    method AllocDesc() returns (r: int)
      requires Valid()
      modifies this`free
      ensures Valid()
      ensures r == -1 <==> FirstFree(old(free), 0) == None
      ensures r == -1 ==> free == old(free)
      ensures r != -1 ==> FirstFree(old(free), 0) == Some(r) && free == old(free)[r := false]
    {
      var i := 0;
      while i < NUM
        invariant i <= NUM && free == old(free) && FirstFree(free, 0) == FirstFree(free, i)
      {
        if free[i] {
          free := free[i := false];
          return i;
        }
        i := i + 1;
      }
      r := -1;
    }

    /** free_desc(): the panics are its precondition. */
    method FreeDesc(i: nat)
      requires Valid() && i < NUM && !free[i]
      modifies this`free, this`desc
      ensures Valid() && free == old(free)[i := true] && desc == old(desc)[i := CLEAR]
    {
      desc := desc[i := CLEAR];
      free := free[i := true];
    }

    /** alloc3_desc(): the first three free descriptors, or -1 and nothing taken. */
    method Alloc3Desc() returns (r: int, idx: seq<nat>)
      requires Valid()
      modifies this`free, this`desc
      ensures Valid() && (r == 0 || r == -1)
      ensures forall i :: 0 <= i < NUM ==> desc[i] == old(desc)[i] || (old(free)[i] && desc[i] == CLEAR)
      ensures r == -1 <==> Alloc3(old(free)) == None
      ensures r == -1 ==> free == old(free)
      ensures r == 0 ==> |idx| == 3 && Alloc3(old(free)) == Some(Triple(idx[0], idx[1], idx[2]))
                         && free == Mark(old(free), Triple(idx[0], idx[1], idx[2]), false) && desc == old(desc)
    {
      hide FirstFree;
      ghost var free0 := free;
      idx := [];
      var i := 0;
      while i < 3
        invariant i <= 3 && |idx| == i && Valid() && desc == old(desc) && InOrder(free0, idx)
                  && Without(free0, free, idx)
      {
        NextFree(free0, free, idx);
        var d := AllocDesc();
        if d == -1 {
          Alloc3Fails(free0, idx);
          var j := 0;
          while j < i
            invariant 0 <= j <= i && Valid() && Without(free0, free, idx[j..])
            invariant forall x :: 0 <= x < NUM ==> desc[x] == old(desc)[x] || (free0[x] && desc[x] == CLEAR)
          {
            TakenOne(free0, free, idx, j);
            FreeDesc(idx[j]);
            j := j + 1;
          }
          return -1, [];
        }
        idx := idx + [d];
        i := i + 1;
      }
      Alloc3Finds(free0, free, idx);
      r := 0;
    }

    /** free_chain(): every descriptor of the chain, and no other, is free and clear. */
    method FreeChain(head: nat, ghost c: seq<nat>)
      requires Valid() && IsChain(desc, c) && c[0] == head && forall k :: 0 <= k < |c| ==> InUse(free, c, k)
      modifies this`free, this`desc
      ensures Valid() && forall i :: 0 <= i < NUM ==> free[i] == (old(free)[i] || i in c)
      ensures forall i :: 0 <= i < NUM ==> desc[i] == if i in c then CLEAR else old(desc)[i]
    {
      var i := head;
      ghost var k := 0;
      while true
        invariant 0 <= k < |c| && c[k] == i && Valid()
        invariant forall x :: 0 <= x < NUM ==> free[x] == (old(free)[x] || x in c[..k])
        invariant forall x :: 0 <= x < NUM ==> desc[x] == if x in c[..k] then CLEAR else old(desc)[x]
        decreases |c| - k
      {
        assert Link(old(desc), c, k) && InUse(old(free), c, k) && c[k] !in c[..k];
        var chained, nxt := desc[i].chained, desc[i].next;
        FreeDesc(i);
        assert c[..k + 1] == c[..k] + [i];
        if chained {
          i := nxt;
        } else {
          assert c[..k + 1] == c;
          break;
        }
        k := k + 1;
      }
    }
  }

  /** Descriptor k of the chain points to the next one, and the last to none. */
  ghost predicate Link(desc: seq<Desc>, c: seq<nat>, k: nat)
    requires k < |c|
  {
    && c[k] < |desc| && desc[c[k]].chained == (k + 1 < |c|) && (k + 1 < |c| ==> desc[c[k]].next == c[k + 1])
  }

  ghost predicate InUse(free: seq<bool>, c: seq<nat>, k: nat)
    requires k < |c|
  {
    c[k] < |free| && !free[c[k]]
  }

  ghost predicate IsChain(desc: seq<Desc>, c: seq<nat>) {
    && |c| > 0 && |desc| == NUM && (forall k :: 0 <= k < |c| ==> Link(desc, c, k))
    && forall j, k :: 0 <= j < k < |c| ==> c[j] != c[k]
  }

  /** Where the search for the k-th descriptor starts. */
  ghost function Start(idx: seq<nat>, k: nat): nat
    requires k <= |idx|
  {
    if k == 0 then 0 else idx[k - 1] + 1
  }

  /** idx holds the first free descriptors, in order. */
  ghost predicate InOrder(free0: seq<bool>, idx: seq<nat>) {
    && |free0| == NUM && (forall k :: 0 <= k < |idx| ==> Found(free0, idx, k))
    && (forall j, k :: 0 <= j < k < |idx| ==> idx[j] < idx[k])
    && (forall x :: 0 <= x < Start(idx, |idx|) && x < NUM && free0[x] ==> x in idx)
  }

  ghost predicate Found(free0: seq<bool>, idx: seq<nat>, k: nat)
    requires k < |idx|
  {
    idx[k] < |free0| && free0[idx[k]] && FirstFree(free0, Start(idx, k)) == Some(idx[k])
  }

  /** free is free0 with the descriptors of idx taken. */
  ghost predicate Without(free0: seq<bool>, free: seq<bool>, idx: seq<nat>) {
    |free0| == NUM && |free| == NUM && forall x :: 0 <= x < NUM ==> free[x] == (free0[x] && x !in idx)
  }

  /** Beyond the last one found nothing has been taken, and before it nothing is free. */
  lemma PastFound(free0: seq<bool>, free: seq<bool>, idx: seq<nat>)
    requires InOrder(free0, idx) && Without(free0, free, idx)
    ensures Start(idx, |idx|) <= NUM && FirstFree(free, 0) == FirstFree(free0, Start(idx, |idx|))
  {
    assert |idx| > 0 ==> Found(free0, idx, |idx| - 1);
  }

  lemma FoundMore(free0: seq<bool>, idx: seq<nat>, d: nat)
    requires InOrder(free0, idx) && Start(idx, |idx|) <= NUM && FirstFree(free0, Start(idx, |idx|)) == Some(d)
    ensures InOrder(free0, idx + [d])
  {
    var idx' := idx + [d];
    forall k | 0 <= k < |idx'|
      ensures Found(free0, idx', k)
    {
      if k < |idx| {
        assert Found(free0, idx, k) && Start(idx', k) == Start(idx, k);
      } else {
        assert Start(idx', k) == Start(idx, |idx|);
      }
    }
  }

  /** The next search from the start finds what a search past the last one found would. */
  lemma NextFree(free0: seq<bool>, free: seq<bool>, idx: seq<nat>)
    requires InOrder(free0, idx) && Without(free0, free, idx)
    ensures Start(idx, |idx|) <= NUM && FirstFree(free, 0) == FirstFree(free0, Start(idx, |idx|))
    ensures var d := FirstFree(free, 0);
            d.Some? ==> InOrder(free0, idx + [d.value]) && Without(free0, free[d.value := false], idx + [d.value])
  {
    var st := Start(idx, |idx|);
    assert |idx| > 0 ==> Found(free0, idx, |idx| - 1);
    PastFound(free0, free, idx);
    var d := FirstFree(free, 0);
    if d.Some? {
      FoundMore(free0, idx, d.value);
    }
  }

  lemma Alloc3Fails(free0: seq<bool>, idx: seq<nat>)
    requires InOrder(free0, idx) && |idx| < 3 && Start(idx, |idx|) <= NUM && FirstFree(free0, Start(idx, |idx|)) == None
    ensures Alloc3(free0) == None
  {
    assert forall k :: 0 <= k < |idx| ==> Found(free0, idx, k);
    hide FirstFree;
  }

  lemma Alloc3Finds(free0: seq<bool>, free: seq<bool>, idx: seq<nat>)
    requires InOrder(free0, idx) && |idx| == 3 && Without(free0, free, idx)
    ensures Alloc3(free0) == Some(Triple(idx[0], idx[1], idx[2])) && idx[0] < NUM && idx[1] < NUM && idx[2] < NUM
    ensures free == Mark(free0, Triple(idx[0], idx[1], idx[2]), false)
  {
    assert Found(free0, idx, 0) && Found(free0, idx, 1) && Found(free0, idx, 2);
    hide FirstFree;
  }

  lemma TakenOne(free0: seq<bool>, free: seq<bool>, idx: seq<nat>, j: nat)
    requires InOrder(free0, idx) && j < |idx| && Without(free0, free, idx[j..])
    ensures idx[j] < NUM && !free[idx[j]] && free0[idx[j]] && Without(free0, free[idx[j] := true], idx[j + 1..])
  {
    assert Found(free0, idx, j) && idx[j] in idx[j..];
    assert idx[j..] == [idx[j]] + idx[j + 1..];
  }
}
