/** The physical page allocator of kernel/kalloc.c: one free list per CPU, and a CPU whose
    list is empty takes a page from the first other list that has one. */
module Kalloc {
  import opened Options

  const PGSIZE := 4096

  /** PGROUNDUP(a) / PGSIZE. */
  function PageUp(a: nat): nat { (a + PGSIZE - 1) / PGSIZE }

  /** What a page of memory holds: the 64-bit words of a page table page, or bytes. */
  datatype Frame = Words(ws: seq<nat>) | Octets(data: seq<int>)
  type Ram = map<nat, Frame>

  /** memset() of a whole page. */
  function FilledWith(b: int): Frame { Octets(seq(PGSIZE, i => b)) }

  /** The free lists, first page first; pages are nonzero page numbers. */
  type Lists = seq<seq<nat>>

  ghost function FreePages(fl: Lists): set<nat> {
    set i, k | 0 <= i < |fl| && 0 <= k < |fl[i]| :: fl[i][k]
  }

  /** No page is on a list twice or on two lists. */
  ghost predicate NoDup(fl: Lists) {
    && (forall i, k, l :: 0 <= i < |fl| && 0 <= k < l < |fl[i]| ==> fl[i][k] != fl[i][l])
    && (forall i, j, k, l :: 0 <= i < j < |fl| && 0 <= k < |fl[i]| && 0 <= l < |fl[j]| ==> fl[i][k] != fl[j][l])
  }

  /** The first nonempty list from i on, other than cid's. */
  function FirstOther(fl: Lists, cid: nat, i: nat): (r: Option<nat>)
    ensures r.Some? ==> i <= r.value < |fl| && r.value != cid && fl[r.value] != []
    ensures r == None ==> forall j :: i <= j < |fl| && j != cid ==> fl[j] == []
    ensures r.Some? ==> forall j :: i <= j < r.value && j != cid ==> fl[j] == []
    decreases |fl| - i
  {
    if i >= |fl| then None
    else if i != cid && fl[i] != [] then Some(i)
    else FirstOther(fl, cid, i + 1)
  }

  /** List i is the one to use if it is the running CPU's, or if that one and all before i are empty. */
  predicate Before(fl: Lists, cid: nat, i: nat)
    requires cid < |fl|
  {
    i == cid || (fl[cid] == [] && forall j :: 0 <= j < i < |fl| ==> fl[j] == [])
  }

  /** The list that kalloc() on CPU cid takes its page from: its own if that has one. */
  function Source(fl: Lists, cid: nat): (r: Option<nat>)
    requires cid < |fl|
    ensures r.Some? ==> r.value < |fl| && fl[r.value] != [] && Before(fl, cid, r.value)
  {
    if fl[cid] != [] then Some(cid) else FirstOther(fl, cid, 0)
  }

  function TakeFrom(fl: Lists, i: nat): Lists
    requires i < |fl| && fl[i] != []
  {
    fl[i := fl[i][1..]]
  }

  function GiveTo(fl: Lists, cid: nat, p: nat): Lists
    requires cid < |fl|
  {
    fl[cid := [p] + fl[cid]]
  }

  /** kalloc() fails exactly when there is no free page at all. */
  lemma FailsIffEmpty(fl: Lists, cid: nat)
    requires cid < |fl|
    ensures Source(fl, cid) == None <==> FreePages(fl) == {}
  {
    if Source(fl, cid) == None {
      forall i | 0 <= i < |fl|
        ensures fl[i] == []
      {
      }
      assert FreePages(fl) == {};
    } else {
      var i := Source(fl, cid).value;
      assert fl[i][0] in FreePages(fl);
    }
  }

  /** A page leaves the free lists whole, and only that page. */
  lemma TakeConserves(fl: Lists, i: nat)
    requires NoDup(fl) && i < |fl| && fl[i] != []
    ensures NoDup(TakeFrom(fl, i))
    ensures fl[i][0] in FreePages(fl) && fl[i][0] !in FreePages(TakeFrom(fl, i))
    ensures FreePages(fl) == FreePages(TakeFrom(fl, i)) + {fl[i][0]}
  {
    var fl' := TakeFrom(fl, i);
    forall p | p in FreePages(fl)
      ensures p in FreePages(fl') + {fl[i][0]}
    {
      var j, k :| 0 <= j < |fl| && 0 <= k < |fl[j]| && fl[j][k] == p;
      if j == i && k > 0 {
        assert fl'[i][k - 1] == p;
      } else if j != i {
        assert fl'[j][k] == p;
      }
    }
    forall p | p in FreePages(fl')
      ensures p in FreePages(fl) && p != fl[i][0]
    {
      var j, k :| 0 <= j < |fl'| && 0 <= k < |fl'[j]| && fl'[j][k] == p;
      if j == i {
        assert fl[i][k + 1] == p;
      } else {
        assert fl[j][k] == p;
      }
    }
  }

  lemma GiveConserves(fl: Lists, cid: nat, p: nat)
    requires NoDup(fl) && cid < |fl| && p !in FreePages(fl)
    ensures NoDup(GiveTo(fl, cid, p)) && FreePages(GiveTo(fl, cid, p)) == FreePages(fl) + {p}
  {
    var fl' := GiveTo(fl, cid, p);
    forall q | q in FreePages(fl) + {p}
      ensures q in FreePages(fl')
    {
      if q == p {
        assert fl'[cid][0] == p;
      } else {
        var j, k :| 0 <= j < |fl| && 0 <= k < |fl[j]| && fl[j][k] == q;
        assert fl'[j][if j == cid then k + 1 else k] == q;
      }
    }
    forall q | q in FreePages(fl')
      ensures q in FreePages(fl) + {p}
    {
      var j, k :| 0 <= j < |fl'| && 0 <= k < |fl'[j]| && fl'[j][k] == q;
      if j == cid && k > 0 {
        assert fl[j][k - 1] == q;
      } else if j != cid {
        assert fl[j][k] == q;
      }
    }
    forall i, k | 0 <= i < |fl| && 0 <= k < |fl[i]|
      ensures fl[i][k] != p
    {
      assert fl[i][k] in FreePages(fl);
    }
  }

  // ---------------------------------------------------------------- the linked lists

  /** The list l starts at h and is linked through next, ending with 0. */
  ghost predicate Chain(next: map<nat, nat>, h: nat, l: seq<nat>)
    decreases |l|
  {
    if l == [] then h == 0 else h != 0 && h == l[0] && h in next && Chain(next, next[h], l[1..])
  }

  lemma {:induction false} ChainFrame(next: map<nat, nat>, h: nat, l: seq<nat>, p: nat, q: nat)
    requires Chain(next, h, l) && p !in l
    ensures Chain(next[p := q], h, l)
    decreases |l|
  {
    if l != [] {
      ChainFrame(next, next[h], l[1..], p, q);
    }
  }

  class Kmem {
    var head: seq<nat>           // kmem[i].freelist, 0 for null
    var next: map<nat, nat>      // the link stored in the first word of a free page
    var ram: Ram                 // the other contents of all pages
    ghost var lists: Lists

    ghost predicate Valid()
      reads this
    {
      && |lists| == |head| && NoDup(lists) && 0 !in FreePages(lists)
      && forall i :: 0 <= i < |head| ==> Chain(next, head[i], lists[i])
    }

    constructor (ncpu: nat, ram: Ram)
      ensures Valid() && |head| == ncpu && FreePages(lists) == {} && this.ram == ram
    {
      this.ram := ram;
      head := seq(ncpu, i => 0);
      next := map[];
      lists := seq(ncpu, i => []);
    }

    /** kfree(): the page is filled with junk and goes to the front of the running CPU's list. */
    method Kfree(pa: nat, cid: nat)
      requires Valid() && cid < |head| && pa != 0 && pa !in FreePages(lists)
      modifies this
      ensures Valid() && lists == GiveTo(old(lists), cid, pa) && |head| == |old(head)|
      ensures FreePages(lists) == FreePages(old(lists)) + {pa} && ram == old(ram)[pa := FilledWith(1)]
    {
      ram := ram[pa := FilledWith(1)];
      GiveConserves(lists, cid, pa);
      forall i | 0 <= i < |head|
        ensures Chain(next[pa := head[cid]], head[i], lists[i])
      {
        assert forall k :: 0 <= k < |lists[i]| ==> lists[i][k] in FreePages(lists);
        ChainFrame(next, head[i], lists[i], pa, head[cid]);
      }
      next := next[pa := head[cid]];
      head := head[cid := pa];
      lists := GiveTo(lists, cid, pa);
      assert lists[cid][1..] == old(lists)[cid];
    }

    /** kalloc(): 0 exactly when no CPU has a free page; else the first page of the own
        list, or of the first other list that has one, filled with junk. */
    method Kalloc(cid: nat) returns (r: nat)
      requires Valid() && cid < |head|
      modifies this`head, this`lists, this`ram
      ensures Valid() && |head| == |old(head)|
      ensures r == 0 <==> FreePages(old(lists)) == {}
      ensures r == 0 ==> lists == old(lists) && ram == old(ram)
      ensures r != 0 ==> ram == old(ram)[r := FilledWith(5)]
      ensures r != 0 ==> Source(old(lists), cid).Some?
                         && var i := Source(old(lists), cid).value;
                         && i < |old(lists)| && old(lists)[i] != [] && r == old(lists)[i][0]
                         && Before(old(lists), cid, i)
                         && lists == TakeFrom(old(lists), i)
      ensures r != 0 ==> FreePages(old(lists)) == FreePages(lists) + {r} && r !in FreePages(lists)
    {
      r := Pop(cid);
      if r != 0 {
        ram := ram[r := FilledWith(5)];
      }
    }

    /** The search of kalloc(): takes a page off a list. */
    method Pop(cid: nat) returns (r: nat)
      requires Valid() && cid < |head|
      modifies this`head, this`lists
      ensures Valid() && |head| == |old(head)|
      ensures r == 0 <==> FreePages(old(lists)) == {}
      ensures r == 0 ==> lists == old(lists)
      ensures r != 0 ==> Source(old(lists), cid).Some?
                         && var i := Source(old(lists), cid).value;
                         && i < |old(lists)| && old(lists)[i] != [] && r == old(lists)[i][0]
                         && Before(old(lists), cid, i)
                         && lists == TakeFrom(old(lists), i)
      ensures r != 0 ==> FreePages(old(lists)) == FreePages(lists) + {r} && r !in FreePages(lists)
    {
      FailsIffEmpty(lists, cid);
      r := head[cid];
      if r != 0 {
        TakeConserves(lists, cid);
        head := head[cid := next[r]];
        lists := TakeFrom(lists, cid);
        return;
      }
      var i := 0;
      while i < |head|
        invariant 0 <= i <= |head| && r == 0 && unchanged(this)
        invariant FirstOther(lists, cid, 0) == FirstOther(lists, cid, i)
      {
        if i != cid {
          r := head[i];
          if r != 0 {
            TakeConserves(lists, i);
            head := head[i := next[r]];
            lists := TakeFrom(lists, i);
            return;
          }
        }
        i := i + 1;
      }
    }

    /** freerange(): exactly the whole pages between two byte addresses, each once. */
    method FreeRange(start: nat, end: nat, cid: nat)
      requires Valid() && cid < |head| && start > 0
      requires forall p :: start <= p * PGSIZE && p * PGSIZE + PGSIZE <= end ==> p !in FreePages(lists)
      modifies this
      ensures Valid() && |head| == |old(head)|
      ensures forall q :: q in FreePages(lists) <==>
                q in FreePages(old(lists)) || (q >= 0 && start <= q * PGSIZE && q * PGSIZE + PGSIZE <= end)
    {
      var p := PageUp(start);
      while p * PGSIZE + PGSIZE <= end
        invariant PageUp(start) <= p && Valid() && |head| == |old(head)|
        invariant p == PageUp(start) || p * PGSIZE <= end
        invariant forall q :: q in FreePages(lists) <==> q in FreePages(old(lists)) || PageUp(start) <= q < p
        decreases end - p * PGSIZE
      {
        Kfree(p, cid);
        p := p + 1;
      }
    }
  }
}
