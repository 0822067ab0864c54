/** copyout() and copyin() of kernel/vm.c: bytes moved page by page between the kernel and
    user virtual memory, against a specification that moves one byte at a time. */
module UserCopy {
  import opened Sv39
  import opened Kalloc
  import opened Spaces
  import opened Vm
  import opened Mmu

  /** walkaddr(): the physical page of a user page, or 0. */
  ghost function UserAddr(pt: map<nat, Pte>, v: nat): nat {
    if v in pt && pt[v].flags.u then pt[v].ppn else 0
  }

  /** Pages open to the user hold bytes, and are not page 0. */
  ghost predicate UserOk(mem: Memory, pt: map<nat, Pte>) {
    forall v :: v in pt && pt[v].flags.u ==> pt[v].ppn != 0 && DataPage(mem, pt[v].ppn)
  }

  predicate DataPage(mem: Memory, p: nat) {
    p in mem && mem[p].Bytes? && |mem[p].data| == PGSIZE
  }

  /** No two user pages share a physical page. */
  ghost predicate Injective(pt: map<nat, Pte>) {
    forall v, w :: UserAddr(pt, v) != 0 && UserAddr(pt, v) == UserAddr(pt, w) ==> v == w
  }

  // ---------------------------------------------------------------- one byte at a time

  function PutByte(mem: Memory, p: nat, off: nat, b: int): Memory {
    if DataPage(mem, p) && off < PGSIZE then mem[p := Bytes(mem[p].data[off := b])] else mem
  }

  function GetByte(mem: Memory, p: nat, off: nat): int {
    if DataPage(mem, p) && off < PGSIZE then mem[p].data[off] else 0
  }

  function Off(va: nat): (r: nat)
    ensures r < PGSIZE
  {
    va % PGSIZE
  }

  function PageNo(va: nat): nat { va / PGSIZE }

  /** Memory after the first k bytes of src have been stored from virtual address va on. */
  ghost function Written(mem: Memory, pt: map<nat, Pte>, va: nat, src: seq<int>, k: nat): Memory
    requires k <= |src|
  {
    if k == 0 then mem
    else PutByte(Written(mem, pt, va, src, k - 1), UserAddr(pt, PageNo(va + k - 1)), Off(va + k - 1), src[k - 1])
  }

  /** The byte at a virtual address. */
  ghost function ByteAt(mem: Memory, pt: map<nat, Pte>, va: nat): int {
    GetByte(mem, UserAddr(pt, PageNo(va)), Off(va))
  }

  ghost function Fetched(mem: Memory, pt: map<nat, Pte>, va: nat, n: nat): seq<int> {
    seq(n, i requires 0 <= i => ByteAt(mem, pt, va + i))
  }

  /** Every address of the range is open to the user. */
  ghost predicate Reachable(pt: map<nat, Pte>, va: nat, n: nat) {
    forall x :: va <= x < va + n ==> UserAddr(pt, PageNo(x)) != 0
  }

  lemma SameAddress(x: nat, y: nat)
    requires PageNo(x) == PageNo(y) && Off(x) == Off(y)
    ensures x == y
  {
  }

  lemma {:induction false} WrittenData(mem: Memory, pt: map<nat, Pte>, va: nat, src: seq<int>, k: nat, p: nat)
    requires k <= |src|
    ensures DataPage(Written(mem, pt, va, src, k), p) <==> DataPage(mem, p)
  {
    if k > 0 {
      WrittenData(mem, pt, va, src, k - 1, p);
    }
  }

  lemma SamePage(pt: map<nat, Pte>, v: nat, w: nat)
    requires Injective(pt) && UserAddr(pt, v) != 0 && UserAddr(pt, v) == UserAddr(pt, w)
    ensures v == w
  {
  }

  lemma PutThenGet(mem: Memory, p: nat, off: nat, b: int, q: nat, o: nat)
    requires DataPage(mem, p) && off < PGSIZE && o < PGSIZE
    ensures GetByte(PutByte(mem, p, off, b), q, o) == if q == p && o == off then b else GetByte(mem, q, o)
  {
  }

  /** With injective leaves the stored bytes, and no others, change. */
  lemma {:induction false} WrittenAt(mem: Memory, pt: map<nat, Pte>, va: nat, src: seq<int>, k: nat, x: nat)
    requires UserOk(mem, pt) && Injective(pt) && k <= |src| && Reachable(pt, va, k) && UserAddr(pt, PageNo(x)) != 0
    ensures ByteAt(Written(mem, pt, va, src, k), pt, x) == if va <= x < va + k then src[x - va] else ByteAt(mem, pt, x)
  {
    hide PutByte;
    hide GetByte;
    hide UserAddr;
    hide UserOk;
    hide Injective;
    hide DataPage;
    hide PageNo;
    hide Off;
    if k > 0 {
      var y := va + k - 1;
      assert UserAddr(pt, PageNo(y)) != 0;
      var m := Written(mem, pt, va, src, k - 1);
      UserPage(mem, pt, PageNo(y));
      WrittenData(mem, pt, va, src, k - 1, UserAddr(pt, PageNo(y)));
      PutThenGet(m, UserAddr(pt, PageNo(y)), Off(y), src[k - 1], UserAddr(pt, PageNo(x)), Off(x));
      WrittenAt(mem, pt, va, src, k - 1, x);
      if UserAddr(pt, PageNo(x)) == UserAddr(pt, PageNo(y)) && Off(x) == Off(y) {
        SamePage(pt, PageNo(x), PageNo(y));
        SameAddress(x, y);
      }
    }
  }

  /** What copyout() stores, copyin() fetches, across any number of page boundaries. */
  lemma CopyRoundTrip(mem: Memory, pt: map<nat, Pte>, va: nat, src: seq<int>)
    requires UserOk(mem, pt) && Injective(pt) && Reachable(pt, va, |src|)
    ensures Fetched(Written(mem, pt, va, src, |src|), pt, va, |src|) == src
  {
    forall i | 0 <= i < |src|
      ensures ByteAt(Written(mem, pt, va, src, |src|), pt, va + i) == src[i]
    {
      assert UserAddr(pt, PageNo(va + i)) != 0;
      WrittenAt(mem, pt, va, src, |src|, va + i);
    }
  }

  // ---------------------------------------------------------------- one page at a time

  /** memmove() of a chunk into page p. */
  function PutChunk(mem: Memory, p: nat, off: nat, bytes: seq<int>): Memory
    requires DataPage(mem, p) && off + |bytes| <= PGSIZE
  {
    mem[p := Bytes(mem[p].data[..off] + bytes + mem[p].data[off + |bytes|..])]
  }

  /** The part of a range that lies on the page of its first address. */
  function Chunk(va: nat, len: nat): nat {
    if PGSIZE - Off(va) > len then len else PGSIZE - Off(va)
  }

  lemma OnePage(va: nat, len: nat, i: nat)
    requires i < Chunk(va, len)
    ensures PageNo(va + i) == PageNo(va) && Off(va + i) == Off(va) + i
  {
  }

  lemma ChunkInPage(va: nat, len: nat, n: nat)
    requires n <= Chunk(va, len)
    ensures Off(va) + n <= PGSIZE
  {
  }

  lemma NoChunk(mem: Memory, p: nat, off: nat)
    requires DataPage(mem, p) && off <= PGSIZE
    ensures PutChunk(mem, p, off, []) == mem
  {
    assert mem[p].data[..off] + [] + mem[p].data[off..] == mem[p].data;
  }

  lemma ByteMore(mem: Memory, p: nat, off: nat, bytes: seq<int>, b: int)
    requires DataPage(mem, p) && off + |bytes| < PGSIZE
    ensures PutByte(PutChunk(mem, p, off, bytes), p, off + |bytes|, b) == PutChunk(mem, p, off, bytes + [b])
  {
    ChunkGrows(mem[p].data, off, bytes, b);
  }

  /** Storing a chunk is storing its bytes one by one. */
  lemma {:induction false} ChunkWritten(mem: Memory, pt: map<nat, Pte>, va: nat, src: seq<int>, k: nat, n: nat)
    requires k + n <= |src| && n <= Chunk(va + k, |src| - k)
    requires DataPage(Written(mem, pt, va, src, k), UserAddr(pt, PageNo(va + k)))
    ensures Off(va + k) + n <= PGSIZE
    ensures Written(mem, pt, va, src, k + n)
         == PutChunk(Written(mem, pt, va, src, k), UserAddr(pt, PageNo(va + k)), Off(va + k), src[k..k + n])
  {
    hide UserAddr;
    hide PageNo;
    hide Off;
    hide Chunk;
    hide DataPage;
    var p, off := UserAddr(pt, PageNo(va + k)), Off(va + k);
    var m := Written(mem, pt, va, src, k);
    ChunkInPage(va + k, |src| - k, n);
    if n == 0 {
      NoChunk(m, p, off);
      assert src[k..k] == [];
    } else {
      ChunkWritten(mem, pt, va, src, k, n - 1);
      OnePage(va + k, |src| - k, n - 1);
      assert va + k + (n - 1) == va + (k + n) - 1;
      ByteMore(m, p, off, src[k..k + n - 1], src[k + n - 1]);
      assert src[k..k + n] == src[k..k + n - 1] + [src[k + n - 1]];
    }
  }

  lemma ChunkGrows(data: seq<int>, off: nat, bytes: seq<int>, b: int)
    requires off + |bytes| < |data|
    ensures (data[..off] + bytes + data[off + |bytes|..])[off + |bytes| := b]
         == data[..off] + (bytes + [b]) + data[off + |bytes| + 1..]
  {
  }

  lemma ReachableMore(pt: map<nat, Pte>, va: nat, k: nat, len: nat)
    requires Reachable(pt, va, k) && UserAddr(pt, PageNo(va + k)) != 0
    ensures Reachable(pt, va, k + Chunk(va + k, len))
  {
    forall x | va <= x < va + k + Chunk(va + k, len)
      ensures UserAddr(pt, PageNo(x)) != 0
    {
      if x >= va + k {
        OnePage(va + k, len, x - (va + k));
      }
    }
  }

  lemma FetchedMore(mem: Memory, pt: map<nat, Pte>, va: nat, k: nat, len: nat)
    requires DataPage(mem, UserAddr(pt, PageNo(va + k)))
    ensures Off(va + k) + Chunk(va + k, len) <= PGSIZE
    ensures var n := Chunk(va + k, len);
            Fetched(mem, pt, va, k + n) ==
            Fetched(mem, pt, va, k) + mem[UserAddr(pt, PageNo(va + k))].data[Off(va + k)..Off(va + k) + n]
  {
    var p, off, n := UserAddr(pt, PageNo(va + k)), Off(va + k), Chunk(va + k, len);
    var whole, chunk := Fetched(mem, pt, va, k + n), mem[p].data[off..off + n];
    forall j | k <= j < k + n
      ensures whole[j] == (Fetched(mem, pt, va, k) + chunk)[j]
    {
      OnePage(va + k, len, j - k);
      assert va + k + (j - k) == va + j && whole[j] == ByteAt(mem, pt, va + j);
    }
  }

  /** If the pages open to the user are the table's own, no two of them share a physical page. */
  lemma OwnedInjective(mem: Memory, free: set<nat>, tabs: Tabs, place: Places, r: nat)
    requires World(mem, free, tabs, place) && r in tabs
    requires forall v :: v in tabs[r].pt && tabs[r].pt[v].flags.u ==> Owned(place, r, tabs[r].pt, v)
    ensures Injective(tabs[r].pt)
  {
    forall v, w | UserAddr(tabs[r].pt, v) != 0 && UserAddr(tabs[r].pt, v) == UserAddr(tabs[r].pt, w)
      ensures v == w
    {
      OwnedOnce(mem, free, tabs, place, r, v, r, w);
    }
  }

  /** walkaddr(). */
  method Walkaddr(m: Machine, r: nat, v: nat) returns (pa: nat)
    requires m.Valid() && r in m.tabs
    ensures pa == UserAddr(m.tabs[r].pt, v)
  {
    hide World;
    m.TreeOf(r);
    if v >= MAXVPN {
      return 0;
    }
    var node := m.Find(r, v);
    assert ReadsAt(m.mem, r, m.tabs[r].pt, v);
    if node.None? {
      return 0;
    }
    DescendPos(m.mem, r, m.tabs[r].nodes, v, 0);
    TreeNode(m.mem, r, m.tabs[r].nodes, node.value);
    PxBound(0, v);
    var pte := m.LoadPte(node.value, Px(0, v));
    return if IsValid(pte) && pte.flags.u then pte.ppn else 0;
  }

  /** A page that holds bytes in the model holds them in memory. */
  lemma DataShown(ram: Ram, mem: Memory, p: nat)
    requires Agree(ram, mem) && DataPage(mem, p)
    ensures p in ram && ram[p] == Octets(mem[p].data)
  {
    assert Shows(ram[p], mem[p]);
  }

  /** The bytes that copyin() and copyout() touch are those that user code would: where the hardware
      translates va for the user, it is to the page and the byte that ByteAt speaks about. */
  lemma UserByte(m: Machine, r: nat, va: nat)
    requires m.Valid() && r in m.tabs && va / 4096 < 2 * MAXVPN && UserOk(m.mem, m.tabs[r].pt)
    ensures match Translate(m.kmem.ram, r, va, 2)
            case None => UserAddr(m.tabs[r].pt, PageNo(va)) == 0 || !Proper(m.tabs[r].pt[PageNo(va)])
            case Some(w) =>
              if w / 16 % 2 == 0 then UserAddr(m.tabs[r].pt, PageNo(va)) == 0
              else
                && UserAddr(m.tabs[r].pt, PageNo(va)) == w / 1024 != 0 && w / 1024 in m.kmem.ram
                && m.kmem.ram[w / 1024].Octets? && |m.kmem.ram[w / 1024].data| == 4096
                && ByteAt(m.mem, m.tabs[r].pt, va) == m.kmem.ram[w / 1024].data[va % 4096]
  {
    hide World;
    hide Agree;
    hide Translate;
    m.Translates(r, va / 4096);
    m.SoundOf();
    var p := UserAddr(m.tabs[r].pt, PageNo(va));
    if p != 0 {
      UserShown(m.kmem.ram, m.mem, m.tabs[r].pt, va);
    }
  }

  lemma UserShown(ram: Ram, mem: Memory, pt: map<nat, Pte>, va: nat)
    requires Agree(ram, mem) && UserOk(mem, pt) && UserAddr(pt, PageNo(va)) != 0
    ensures var p := UserAddr(pt, PageNo(va));
            && p in ram && ram[p].Octets? && |ram[p].data| == 4096 && ByteAt(mem, pt, va) == ram[p].data[va % 4096]
  {
    DataShown(ram, mem, UserAddr(pt, PageNo(va)));
  }

  /** Storing a chunk leaves every page table and every place alone. */
  method StoreChunk(m: Machine, r: nat, p: nat, off: nat, bytes: seq<int>, ghost v: nat)
    requires m.Valid() && r in m.tabs && UserOk(m.mem, m.tabs[r].pt) && p == UserAddr(m.tabs[r].pt, v) && p != 0
    requires off + |bytes| <= PGSIZE
    modifies m`mem, m.kmem`ram
    ensures DataPage(old(m.mem), p) && m.mem == PutChunk(old(m.mem), p, off, bytes)
    ensures m.Valid() && UserOk(m.mem, m.tabs[r].pt)
  {
    hide World;
    hide Agree;
    ghost var mem' := PutChunk(m.mem, p, off, bytes);
    forall q | q in m.tabs
      ensures p !in m.tabs[q].nodes
    {
      LeafNotNode(m.mem, m.F(), m.tabs, m.place, r, v, q);
    }
    DataStep(m.mem, m.F(), m.tabs, m.place, p, mem'[p]);
    DataShown(m.kmem.ram, m.mem, p);
    var data := m.kmem.ram[p].data;
    FrameStored(m.kmem.ram, m.mem, p, Octets(data[..off] + bytes + data[off + |bytes|..]), mem'[p]);
    m.kmem.ram := m.kmem.ram[p := Octets(data[..off] + bytes + data[off + |bytes|..])];
    m.mem := mem';
  }

  /** copyout(): succeeds exactly when the whole range is open to the user; on failure the
      bytes before the first closed page have been stored. */
  method Copyout(m: Machine, r: nat, dstva: nat, src: seq<int>) returns (ok: bool, ghost k: nat)
    requires m.Valid() && r in m.tabs && UserOk(m.mem, m.tabs[r].pt)
    modifies m`mem, m.kmem`ram
    ensures m.Valid() && UserOk(m.mem, m.tabs[r].pt)
    ensures ok <==> Reachable(m.tabs[r].pt, dstva, |src|)
    ensures k <= |src| && m.mem == Written(old(m.mem), m.tabs[r].pt, dstva, src, k)
    ensures if ok then k == |src|
            else k < |src| && Reachable(m.tabs[r].pt, dstva, k) && UserAddr(m.tabs[r].pt, PageNo(dstva + k)) == 0
  {
    hide UserOk;
    hide UserAddr;
    hide Chunk;
    hide PageNo;
    hide Off;
    hide Reachable;
    hide World;
    hide Agree;
    ghost var pt := m.tabs[r].pt;
    NoneMoved(m.mem, pt, dstva, src);
    k := 0;
    var done, len, dst := 0, |src|, dstva;
    while len > 0
      invariant done == k && len == |src| - k && k <= |src| && (len > 0 ==> dst == dstva + k)
      invariant m.Valid() && UserOk(m.mem, pt) && Reachable(pt, dstva, k)
      invariant m.mem == Written(old(m.mem), pt, dstva, src, k)
    {
      var pa := Walkaddr(m, r, PageNo(dst));
      if pa == 0 {
        NotReachable(pt, dstva, k, |src|);
        return false, k;
      }
      var n := Chunk(dst, len);
      ChunkBound(dst, len);
      ReachableMore(pt, dstva, k, len);
      ghost var mem1 := m.mem;
      StoreChunk(m, r, pa, Off(dst), src[done..done + n], PageNo(dst));
      ChunkWritten(old(m.mem), pt, dstva, src, k, n);
      assert m.mem == PutChunk(mem1, pa, Off(dst), src[k..k + n]);
      len, done := len - n, done + n;
      k := k + n;
      dst := PageNo(dst) * PGSIZE + PGSIZE;
    }
    ok := true;
  }

  lemma NoneMoved(mem: Memory, pt: map<nat, Pte>, va: nat, src: seq<int>)
    ensures Reachable(pt, va, 0) && Written(mem, pt, va, src, 0) == mem && Fetched(mem, pt, va, 0) == []
  {
  }

  lemma NotReachable(pt: map<nat, Pte>, va: nat, k: nat, n: nat)
    requires k < n && UserAddr(pt, PageNo(va + k)) == 0
    ensures !Reachable(pt, va, n)
  {
  }

  lemma ChunkBound(va: nat, len: nat)
    requires len > 0
    ensures 0 < Chunk(va, len) <= len && Off(va) + Chunk(va, len) <= PGSIZE
    ensures Chunk(va, len) < len ==> va + Chunk(va, len) == PageNo(va) * PGSIZE + PGSIZE
  {
  }

  lemma UserPage(mem: Memory, pt: map<nat, Pte>, v: nat)
    requires UserOk(mem, pt) && UserAddr(pt, v) != 0
    ensures DataPage(mem, UserAddr(pt, v))
  {
  }

  /** copyin(): succeeds exactly when the whole range is open to the user; on failure the bytes
      before the first closed page have been moved. */
  method Copyin(m: Machine, r: nat, srcva: nat, n: nat) returns (ok: bool, dst: seq<int>)
    requires m.Valid() && r in m.tabs && UserOk(m.mem, m.tabs[r].pt)
    ensures ok <==> Reachable(m.tabs[r].pt, srcva, n)
    ensures |dst| <= n && Reachable(m.tabs[r].pt, srcva, |dst|) && dst == Fetched(m.mem, m.tabs[r].pt, srcva, |dst|)
    ensures if ok then |dst| == n else |dst| < n && UserAddr(m.tabs[r].pt, PageNo(srcva + |dst|)) == 0
  {
    hide UserOk;
    hide UserAddr;
    hide Chunk;
    hide DataPage;
    hide PageNo;
    hide Off;
    hide Reachable;
    hide World;
    hide Agree;
    ghost var pt := m.tabs[r].pt;
    NoneMoved(m.mem, pt, srcva, []);
    dst := [];
    var len, src := n, srcva;
    while len > 0
      invariant 0 <= len <= n && |dst| == n - len && (len > 0 ==> src == srcva + (n - len))
      invariant Reachable(pt, srcva, n - len) && dst == Fetched(m.mem, pt, srcva, n - len)
    {
      var pa := Walkaddr(m, r, PageNo(src));
      if pa == 0 {
        NotReachable(pt, srcva, n - len, n);
        return false, dst;
      }
      var l := Chunk(src, len);
      ChunkBound(src, len);
      ReachableMore(pt, srcva, n - len, len);
      UserPage(m.mem, pt, PageNo(src));
      DataShown(m.kmem.ram, m.mem, pa);
      FetchedMore(m.mem, pt, srcva, n - len, len);
      dst := dst + m.kmem.ram[pa].data[Off(src)..Off(src) + l];
      len := len - l;
      src := PageNo(src) * PGSIZE + PGSIZE;
    }
    ok := true;
  }
}
