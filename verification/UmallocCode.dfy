/** malloc(), free() and morecore() of user/umalloc.c as loops over the linked headers. */
module UmallocCode {
  import opened Options
  import opened Umalloc

  const HEADER := 16 // sizeof(Header)

  /** The units that malloc() looks for: a header, and behind it room for the bytes and no unit
      more. */
  function Units(nbytes: nat): (n: nat)
    ensures n >= 1 && nbytes <= (n - 1) * HEADER < nbytes + HEADER
  {
    (nbytes + HEADER - 1) / HEADER + 1
  }

  /** The units that morecore() asks for: at least those wanted, and 64 KB. */
  function Ask(nu: nat): (n: nat)
    ensures nu <= n && 0x1_0000 <= n * HEADER && (n == nu || n * HEADER == 0x1_0000)
  {
    if nu < 4096 then 4096 else nu
  }

  /** The bytes of blocks that are not block h lie before addr, less a header, or from end on. */
  ghost predicate Apart(live: Blocks, h: nat, addr: nat, end: nat) {
    forall b :: b in live && b != h ==> (b + live[b]) * HEADER <= addr - HEADER || end <= b * HEADER
  }

  /** The bytes behind the header of a block of Units(nbytes) are its own. */
  lemma BytesApart(blk: Blocks, own: map<nat, nat>, base: nat, ring: seq<nat>, live: Blocks, h: nat, nbytes: nat)
    requires Listed(blk, own, base, ring, live) && h in live && live[h] == Units(nbytes)
    ensures Apart(live, h, (h + 1) * HEADER, (h + 1) * HEADER + nbytes)
  {
    hide Listed;
    hide Units;
    forall b | b in live && b != h
      ensures (b + live[b]) * HEADER <= h * HEADER || (h + 1) * HEADER + nbytes <= b * HEADER
    {
      LiveDisjoint(blk, own, base, ring, live, h, b);
    }
  }

  /** sbrk() takes an int. */
  function AsInt(x: nat): (r: int)
    ensures -0x8000_0000 <= r < 0x8000_0000 && (x - r) % 0x1_0000_0000 == 0
  {
    var low := x % 0x1_0000_0000;
    if low < 0x8000_0000 then low else low - 0x1_0000_0000
  }

  /** The request reaches sbrk() whole exactly for fewer than 2^27 units, just under 2 GB. */
  lemma AskExact(nu: nat)
    ensures AsInt(Ask(nu) * HEADER) == Ask(nu) * HEADER <==> nu < 0x800_0000
  {
  }

  /** A request for nearly 4 GB asks sbrk() for one header only. */
  lemma AskTruncated()
    ensures Units(0xffff_ffff) == 0x1000_0001 && AsInt(Ask(Units(0xffff_ffff)) * HEADER) == HEADER
  {
  }

  /** The units that sbrk() grants to morecore(nu): none if the int is negative. */
  function Granted(nu: nat): (r: nat)
    ensures r <= Ask(nu) && r * HEADER == if AsInt(Ask(nu) * HEADER) <= 0 then 0 else AsInt(Ask(nu) * HEADER)
  {
    if AsInt(Ask(nu) * HEADER) <= 0 then 0 else AsInt(Ask(nu) * HEADER) / HEADER
  }

  /** Some of the n units from h on are among those that morecore(nu) claims at p, but sbrk() did
      not grant. */
  ghost predicate Overruns(h: nat, n: nat, p: nat, nu: nat) {
    exists u :: u in Range(h, n) && u in Range(p + Granted(nu), Ask(nu) - Granted(nu))
  }

  lemma GrantedExact(nu: nat)
    ensures Granted(nu) == Ask(nu) <==> nu < 0x800_0000
  {
  }

  /** The block that malloc() cuts off the end of the new memory overruns it exactly if the
      memory is shorter than was claimed. */
  lemma OverrunsIff(h: nat, n: nat, p: nat)
    requires h < p + Ask(n) <= h + n
    ensures Overruns(h, n, p, n) <==> n >= 0x800_0000
  {
    GrantedExact(n);
    hide Granted;
    if n >= 0x800_0000 {
      var u := p + Ask(n) - 1;
      assert u in Range(h, n) && u in Range(p + Granted(n), Ask(n) - Granted(n));
    }
  }

  /** A block that is handed out is not in the list, and lies above base. */
  lemma LivePlace(blk: Blocks, own: map<nat, nat>, base: nat, ring: seq<nat>, live: Blocks, bp: nat)
    requires Listed(blk, own, base, ring, live) && bp in live
    ensures base < bp && bp !in ring
  {
    assert Kind(blk, live, ring, bp);
    CoverBase(blk, own, base, bp);
  }

  lemma LiveSize(blk: Blocks, own: map<nat, nat>, base: nat, ring: seq<nat>, live: Blocks, bp: nat)
    requires Listed(blk, own, base, ring, live) && bp in live
    ensures bp in blk && live[bp] == blk[bp]
  {
    assert Kind(blk, live, ring, bp);
  }

  predicate Holds(blk: Blocks, b: nat, n: nat) { b in blk && blk[b] >= n }

  /** After free() the header before the block, or the block itself, has room for it. */
  lemma Result(ptr: map<nat, nat>, blk: Blocks, own: map<nat, nat>, base: nat, ring: seq<nat>, live: Blocks,
               t: nat, bp: nat)
    requires Listed(blk, own, base, ring, live) && bp in live && Place(ring, bp, t) && bp in blk
    ensures var up, low := Up(blk, ring, t, bp), Low(blk, ring, t, bp);
            var blk', ptr' := Blk2(blk, ring, t, bp), InsertPtr(ptr, ring, t, bp, up, low);
            && ring[t] in Insert(ring, t, bp, up, low)
            && Own2(blk, own, ring, t, bp).Keys == own.Keys
            && ring[t] in ptr'
            && (Holds(blk', ring[t], live[bp]) || Holds(blk', ptr'[ring[t]], live[bp]))
  {
    Neighbours(blk, own, base, ring, live, t, bp);
    FreeCover(blk, own, base, ring, live, t, bp);
    assert Kind(blk, live, ring, bp);
    var up, low := Up(blk, ring, t, bp), Low(blk, ring, t, bp);
    InsertIn(ring, t, bp, up, low, ring[t]);
    Blk2At(blk, own, base, ring, live, t, bp, if low then ring[t] else bp);
    hide Blk2;
    hide Own2;
  }

  /** The pointers and sizes in memory, and the list and blocks they stand for. */
  ghost predicate HeapOk(ptr: map<nat, nat>, size: map<nat, nat>, blk: Blocks, own: map<nat, nat>, base: nat,
                         ring: seq<nat>, live: Blocks) {
    Chain(ptr, ring, base) && Listed(blk, own, base, ring, live) && Sized(size, blk, base)
  }

  // ---------------------------------------------------------------- free()

  /** The headers that free() reads: bp, the header p before it and the next one. */
  predicate Readable(ptr: map<nat, nat>, size: map<nat, nat>, p: nat, bp: nat) {
    && bp in size && p in size && p in ptr && p != bp
    && (bp + size[bp] == ptr[p] ==> ptr[p] in ptr && ptr[p] in size)
  }

  /** The pointers and sizes that free() writes. */
  function FreeWrites(ptr: map<nat, nat>, size: map<nat, nat>, p: nat, bp: nat): (map<nat, nat>, map<nat, nat>)
    requires Readable(ptr, size, p, bp)
  {
    var up := bp + size[bp] == ptr[p];
    var size1 := if up then size[bp := size[bp] + size[ptr[p]]] else size;
    var ptr1 := ptr[bp := if up then ptr[ptr[p]] else ptr[p]];
    if p + size[p] == bp then (ptr1[p := ptr1[bp]], size1[p := size1[p] + size1[bp]]) else (ptr1[p := bp], size1)
  }

  lemma WritesInsert(ptr: map<nat, nat>, size: map<nat, nat>, blk: Blocks, own: map<nat, nat>, base: nat,
                     ring: seq<nat>, live: Blocks, t: nat, bp: nat)
    requires HeapOk(ptr, size, blk, own, base, ring, live) && bp in live && Place(ring, bp, t) && bp in blk
    ensures var up, low := Up(blk, ring, t, bp), Low(blk, ring, t, bp);
            && ring[t] in size && (up ==> ring[t + 1] in size) && bp in size && Readable(ptr, size, ring[t], bp)
            && FreeWrites(ptr, size, ring[t], bp)
               == (InsertPtr(ptr, ring, t, bp, up, low), InsertSize(size, ring, t, bp, up, low))
  {
    Touches(ptr, size, blk, own, base, ring, live, t, bp);
    hide HeapOk;
  }

  /** What free() leaves behind. */
  lemma Freed(ptr: map<nat, nat>, size: map<nat, nat>, blk: Blocks, own: map<nat, nat>, base: nat, ring: seq<nat>,
              live: Blocks, t: nat, bp: nat)
    requires HeapOk(ptr, size, blk, own, base, ring, live) && bp in live && Place(ring, bp, t)
    ensures bp in blk && live[bp] == blk[bp] && Readable(ptr, size, ring[t], bp)
    ensures var ring' := Insert(ring, t, bp, Up(blk, ring, t, bp), Low(blk, ring, t, bp));
            var blk', own' := Blk2(blk, ring, t, bp), Own2(blk, own, ring, t, bp);
            var (ptr', size') := FreeWrites(ptr, size, ring[t], bp);
            && HeapOk(ptr', size', blk', own', base, ring', live - {bp})
            && ring[t] in ring' && own'.Keys == own.Keys && ring[t] in ptr' && base <= ring[t]
            && (Holds(blk', ring[t], live[bp]) || Holds(blk', ptr'[ring[t]], live[bp]))
            && Around(blk, live, blk', bp, live[bp])
  {
    hide Listed;
    hide Chain;
    hide Sized;
    hide Blk2;
    hide Own2;
    hide Insert;
    hide InsertPtr;
    hide InsertSize;
    hide Around;
    hide FreeWrites;
    LiveSize(blk, own, base, ring, live, bp);
    Neighbours(blk, own, base, ring, live, t, bp);
    WritesInsert(ptr, size, blk, own, base, ring, live, t, bp);
    FreeListed(blk, own, base, ring, live, t, bp);
    InsertChain(ptr, ring, base, t, bp, Up(blk, ring, t, bp), Low(blk, ring, t, bp));
    InsertSized(size, blk, own, base, ring, live, t, bp);
    Result(ptr, blk, own, base, ring, live, t, bp);
    FreeAround(blk, own, base, ring, live, t, bp);
  }

  // ---------------------------------------------------------------- malloc()

  lemma TakenWhole(ptr: map<nat, nat>, size: map<nat, nat>, blk: Blocks, own: map<nat, nat>, base: nat,
                   ring: seq<nat>, live: Blocks, j: nat, n: nat)
    requires HeapOk(ptr, size, blk, own, base, ring, live) && 1 <= j < |ring|
    requires ring[j] in size && size[ring[j]] == n
    ensures ring[j] in ptr && ring[j - 1] in Unlinked(ring, j) && ring[j] !in live && base <= ring[j - 1]
    ensures HeapOk(ptr[ring[j - 1] := ptr[ring[j]]], size, blk, own, base, Unlinked(ring, j), live[ring[j] := n])
  {
    hide Listed;
    hide Chain;
    hide Sized;
    hide Unlinked;
    TakeFacts(ptr, size, blk, own, base, ring, live, j);
    UnlinkChain(ptr, ring, base, j);
    TakeWhole(blk, own, base, ring, live, j);
  }

  lemma TakenTail(ptr: map<nat, nat>, size: map<nat, nat>, blk: Blocks, own: map<nat, nat>, base: nat,
                  ring: seq<nat>, live: Blocks, j: nat, q: nat, n: nat)
    requires HeapOk(ptr, size, blk, own, base, ring, live) && 1 <= j < |ring| && n >= 1
    requires ring[j] in size && size[ring[j]] > n && q == ring[j] + (size[ring[j]] - n)
    ensures q !in live && SplitOwn(own, ring[j], q).Keys == own.Keys && base <= ring[j - 1]
    ensures HeapOk(ptr, size[ring[j] := size[ring[j]] - n][q := n], Split(blk, ring[j], q, n),
                   SplitOwn(own, ring[j], q), base, ring, live[q := n])
  {
    hide Listed;
    hide Chain;
    hide Sized;
    hide SplitOwn;
    TakeFacts(ptr, size, blk, own, base, ring, live, j);
    TakeTail(blk, own, base, ring, live, j, q, n);
    SplitSized(size, blk, base, ring[j], q, n);
    assert size[ring[j] := size[ring[j]] - n][q := n] == Split(size, ring[j], q, n);
  }

  class Heap {
    const base: nat
    var ptr: map<nat, nat>
    var size: map<nat, nat>
    var freep: nat
    ghost var ring: seq<nat>
    ghost var blk: Blocks
    ghost var own: map<nat, nat>
    ghost var live: Blocks

    ghost predicate Valid()
      reads this
    {
      && base > 0
      && (freep == 0 ==> blk == map[] && own == map[] && live == map[])
      && (freep != 0 ==> freep in ring && HeapOk(ptr, size, blk, own, base, ring, live))
    }

    /** A program starts with an empty list and no memory from sbrk(). */
    constructor (b: nat)
      requires b > 0
      ensures Valid() && base == b && freep == 0 && live == map[] && own == map[]
    {
      base, freep := b, 0;
      ptr, size, ring := map[], map[], [];
      blk, own, live := map[], map[], map[];
    }

    /** The loop of free(): the header after which the block belongs. */
    method FindPlace(bp: nat) returns (p: nat, ghost t: nat)
      requires Valid() && freep != 0 && bp in live
      ensures Place(ring, bp, t) && p == ring[t]
    {
      hide Listed;
      ghost var k :| 0 <= k < |ring| && ring[k] == freep;
      LivePlace(blk, own, base, ring, live, bp);
      t := PlaceExists(ring, bp, |ring|);
      p := freep;
      assert Linked(ptr, ring, k);
      while !(bp > p && bp < ptr[p])
        invariant 0 <= k < |ring| && p == ring[k]
        invariant p in ptr && ptr[p] == Nxt(ring, k)
        decreases Way(|ring|, k, t)
      {
        assert Linked(ptr, ring, k);
        StopsAtPlace(ring, bp, t, k);
        if p >= ptr[p] && (bp > p || bp < ptr[p]) {
          return;
        }
        WayStep(|ring|, k, t);
        k := if k + 1 < |ring| then k + 1 else 0;
        p := ptr[p];
        assert Linked(ptr, ring, k);
      }
      StopsAtPlace(ring, bp, t, k);
    }

    /** The header writes of free(), with the merges up and down. */
    method LinkIn(p: nat, bp: nat)
      requires Readable(ptr, size, p, bp)
      modifies this`ptr, this`size
      ensures (ptr, size) == FreeWrites(old(ptr), old(size), p, bp)
    {
      if bp + size[bp] == ptr[p] {
        size, ptr := size[bp := size[bp] + size[ptr[p]]], ptr[bp := ptr[ptr[p]]];
      } else {
        ptr := ptr[bp := ptr[p]];
      }
      if p + size[p] == bp {
        size, ptr := size[p := size[p] + size[bp]], ptr[p := ptr[bp]];
      } else {
        ptr := ptr[p := bp];
      }
    }

    /** free(), by header: the block goes back into the list and is merged with the free blocks
        it touches.  freep or the next header then has at least its size. */
    method Free(bp: nat)
      requires Valid() && freep != 0 && bp in live
      modifies this
      ensures Valid() && freep != 0 && live == old(live) - {bp} && own.Keys == old(own).Keys
      ensures freep in ptr && (Holds(blk, freep, old(live)[bp]) || Holds(blk, ptr[freep], old(live)[bp]))
      ensures Around(old(blk), old(live), blk, bp, old(live)[bp])
    {
      hide HeapOk;
      hide Around;
      hide Blk2;
      hide Own2;
      hide Insert;
      var p, t := FindPlace(bp);
      Freed(ptr, size, blk, own, base, ring, live, t, bp);
      ghost var ring2 := Insert(ring, t, bp, Up(blk, ring, t, bp), Low(blk, ring, t, bp));
      ghost var blk2, own2 := Blk2(blk, ring, t, bp), Own2(blk, own, ring, t, bp);
      hide FreeWrites;
      LinkIn(p, bp);
      freep := p;
      ring, blk, own, live := ring2, blk2, own2, live - {bp};
    }

    /** morecore(): a new block, of at least 4096 units, is freed into the list. */
    method Morecore(nu: nat, grant: Option<nat>) returns (r: nat)
      requires Valid() && freep != 0 && nu >= 1
      requires grant.Some? ==> base < grant.value && own.Keys !! Range(grant.value, Ask(nu))
      modifies this
      ensures Valid() && freep != 0 && live == old(live)
      ensures grant == None ==> r == 0 && ring == old(ring) && blk == old(blk) && own == old(own)
      ensures grant.Some? ==> r == freep && own.Keys == old(own).Keys + Range(grant.value, Ask(nu))
      ensures grant.Some? ==> freep in ptr && (Holds(blk, freep, nu) || Holds(blk, ptr[freep], nu))
      ensures grant.Some? ==> Around(old(blk), old(live), blk, grant.value, Ask(nu))
    {
      hide Listed;
      hide Around;
      if grant.None? {
        return 0;
      }
      var hp, n := grant.value, Ask(nu);
      GrantListed(blk, own, base, ring, live, hp, n);
      ghost var live0, blk0 := live, blk;
      size := size[hp := n];
      blk, own, live := blk[hp := n], GrantOwn(own, hp, n), live[hp := n];
      Free(hp);
      assert live == live0;
      GrantAround(blk0, live0, blk, hp, n);
      return freep;
    }

    /** The block that malloc() has found: the whole of it, or its tail. */
    method Take(prevp: nat, p: nat, n: nat, ghost j: nat) returns (h: nat)
      requires Valid() && freep != 0 && 1 <= j < |ring| && ring[j] == p && ring[j - 1] == prevp && n >= 1
      requires p in size && size[p] >= n
      modifies this
      ensures Valid() && freep == prevp && h !in old(live)
      ensures live == old(live)[h := n] && own.Keys == old(own).Keys && h + n == p + old(size)[p]
    {
      hide HeapOk;
      hide Unlinked;
      hide SplitOwn;
      hide Split;
      if size[p] == n {
        TakenWhole(ptr, size, blk, own, base, ring, live, j, n);
        ptr := ptr[prevp := ptr[p]];
        ring, live := Unlinked(ring, j), live[p := n];
        h := p;
      } else {
        TakenTail(ptr, size, blk, own, base, ring, live, j, p + (size[p] - n), n);
        size := size[p := size[p] - n];
        var q := p + size[p];
        size := size[q := n];
        own, blk, live := SplitOwn(own, p, q), Split(blk, p, q, n), live[q := n];
        h := q;
      }
      freep := prevp;
    }

    /** The same, from malloc(): grown says whether morecore() has been called, and blk0 and own0
        are the heap at the start. */
    method TakeFound(prevp: nat, p: nat, n: nat, grant: Option<nat>, ghost j: nat, ghost grown: bool,
                     ghost blk0: Blocks, ghost own0: map<nat, nat>) returns (h: nat)
      requires Valid() && freep != 0 && j < |ring| && ring[j] == p && n >= 1 && p in size && size[p] >= n
      requires j >= 1 ==> ring[j - 1] == prevp
      requires !grown ==> own == own0 && blk == blk0
      requires grown ==> grant.Some? && Extended(blk0, own0, live, blk, own, n, grant.value)
      modifies this
      ensures Valid() && h !in old(live) && live == old(live)[h := n]
      ensures NoneFits(blk0, old(live), n) <==> grown
      ensures own.Keys == own0.Keys + if grown then Range(grant.value, Ask(n)) else {}
      ensures grown ==> (Overruns(h, n, grant.value, n) <==> n >= 0x800_0000)
    {
      hide HeapOk;
      hide NoneFits;
      hide Range;
      hide Extended;
      hide Overruns;
      InSize(ptr, size, blk, own, base, ring, live, j);
      if grown {
        NewEnd(blk0, own0, live, ptr, size, blk, own, base, ring, live, j, n, grant.value);
        OverrunsIff(p + size[p] - n, n, grant.value);
      } else {
        SomeFits(ptr, size, blk, own, base, ring, live, j, n);
      }
      h := Take(prevp, p, n, j);
    }

    lemma MineApart(b: nat, nbytes: nat)
      requires Valid() && b in live && live[b] == Units(nbytes)
      ensures Apart(live, b, (b + 1) * HEADER, (b + 1) * HEADER + nbytes)
    {
      BytesApart(blk, own, base, ring, live, b, nbytes);
    }

    /** The initialisation in malloc(). */
    method Start()
      requires Valid()
      modifies this
      ensures Valid() && freep != 0 && live == old(live) && own == old(own) && blk == old(blk)
      ensures old(freep) != 0 ==> ring == old(ring)
    {
      if freep == 0 {
        ptr, size, freep := ptr[base := base], size[base := 0], base;
        ring := [base];
        assert Linked(ptr, ring, 0);
      }
    }

    /** morecore() from malloc(): afterwards header g, which is freep or the next one, is large
        enough. */
    method Extend(nu: nat, grant: Option<nat>) returns (r: nat, ghost f: nat, ghost g: nat)
      requires Valid() && freep != 0 && nu >= 1 && NoneFits(blk, live, nu)
      requires grant.Some? ==> base < grant.value && own.Keys !! Range(grant.value, Ask(nu))
      modifies this
      ensures Valid() && freep != 0 && live == old(live) && (r == 0 <==> grant == None)
      ensures grant == None ==> blk == old(blk) && own == old(own)
      ensures grant.Some? ==> r == freep && f < |ring| && ring[f] == freep
      ensures grant.Some? ==> g < |ring| && Big(size, ring, g, nu) && (g == f || Succ(|ring|, f) == g)
      ensures grant.Some? ==> Extended(old(blk), old(own), old(live), blk, own, nu, grant.value)
    {
      hide HeapOk;
      hide NoneFits;
      hide Range;
      hide Around;
      f, g := 0, 0;
      r := Morecore(nu, grant);
      if grant.Some? {
        f :| 0 <= f < |ring| && ring[f] == freep;
        LinkOf(ptr, size, blk, own, base, ring, live, f);
        g := if Holds(blk, ptr[freep], nu) then Succ(|ring|, f) else f;
        HoldsBig(ptr, size, blk, own, base, ring, live, g, nu);
      }
    }

    /** malloc(): first fit from freep on, with one call of morecore() if nothing fits.  The
        result is a new block, with room for the bytes behind its header that is shared with no
        other block.
        Where nothing fits and sbrk() grants memory, the block overruns the memory that was
        granted exactly if 2^27 units or more were asked for. */
    method Malloc(nbytes: nat, grant: Option<nat>) returns (r: nat, ghost h: nat)
      requires Valid()
      requires grant.Some? && NoneFits(blk, live, Units(nbytes)) ==>
                 base < grant.value && own.Keys !! Range(grant.value, Ask(Units(nbytes)))
      modifies this
      ensures Valid()
      ensures r == 0 <==> grant == None && NoneFits(old(blk), old(live), Units(nbytes))
      ensures r == 0 ==> live == old(live) && own == old(own)
      ensures r != 0 ==> r == h + 1 && h !in old(live) && live == old(live)[h := Units(nbytes)]
      ensures r != 0 ==> nbytes <= (live[h] - 1) * HEADER < nbytes + HEADER
      ensures r != 0 ==> Apart(live, h, r * HEADER, r * HEADER + nbytes)
      ensures own.Keys == old(own).Keys + if NoneFits(old(blk), old(live), Units(nbytes)) && grant.Some?
                                          then Range(grant.value, Ask(Units(nbytes))) else {}
      ensures NoneFits(old(blk), old(live), Units(nbytes)) && grant.Some? ==>
                (Overruns(h, Units(nbytes), grant.value, Units(nbytes)) <==> Units(nbytes) >= 0x800_0000)
    {
      hide HeapOk;
      hide Holds;
      hide Searched;
      hide NoneFits;
      hide Range;
      hide Extended;
      hide Overruns;
      hide Apart;
      var nunits := Units(nbytes);
      Start();
      ghost var f: nat :| f < |ring| && ring[f] == freep;
      ghost var j: nat, g: nat, grown := f, f, false;
      LinkOf(ptr, size, blk, own, base, ring, live, f);
      NotSearched(size, ring, f, nunits);
      var prevp, p := freep, ptr[freep];
      while true
        invariant Valid() && freep != 0 && live == old(live)
        invariant Seat(ring, j, f, prevp, p, freep)
        invariant !grown ==> own == old(own) && blk == old(blk)
        invariant !grown ==> Searched(size, ring, f, j, nunits)
        invariant grown ==> g < |ring| && Big(size, ring, g, nunits) && (g == f || Succ(|ring|, j) == g)
        invariant grown ==> grant.Some? && Extended(old(blk), old(own), old(live), blk, own, nunits, grant.value)
        decreases if grown then 0 else 1, Way(|ring|, Succ(|ring|, j), if grown then g else f)
      {
        ghost var jp := Succ(|ring|, j);
        LinkOf(ptr, size, blk, own, base, ring, live, jp);
        InSize(ptr, size, blk, own, base, ring, live, jp);
        if size[p] >= nunits {
          var b := TakeFound(prevp, p, nunits, grant, jp, grown, old(blk), old(own));
          MineApart(b, nbytes);
          return b + 1, b;
        }
        if p == freep {
          SamePlace(ptr, size, blk, own, base, ring, live, jp, f);
          AllSmall(ptr, size, blk, own, base, ring, live, f, j, nunits);
          p, f, g := Extend(nunits, grant);
          if p == 0 {
            return 0, 0;
          }
          grown, j := true, f;
          LinkOf(ptr, size, blk, own, base, ring, live, f);
        } else {
          SearchMore(size, ring, f, j, nunits);
          WaySucc(|ring|, jp, if grown then g else f);
          j := jp;
        }
        prevp, p := p, ptr[p];
      }
    }
  }

  lemma GrantAround(blk: Blocks, live: Blocks, blk': Blocks, p: nat, n: nat)
    requires Around(blk[p := n], live[p := n], blk', p, n) && p !in blk
    ensures Around(blk, live, blk', p, n)
  {
    forall b | b in blk'
      ensures AroundOk(blk, live, blk', p, n, b)
    {
      assert AroundOk(blk[p := n], live[p := n], blk', p, n, b);
    }
  }

  /** Nothing fitted, and morecore() has added the memory at p. */
  ghost predicate Extended(blk0: Blocks, own0: map<nat, nat>, live0: Blocks, blk: Blocks, own: map<nat, nat>, n: nat,
                           p: nat) {
    NoneFits(blk0, live0, n) && own.Keys == own0.Keys + Range(p, Ask(n)) && Around(blk0, live0, blk, p, Ask(n))
  }

  /** The one block that is large enough after morecore() ends with the new memory, or less than
      n units above it. */
  lemma NewEnd(blk0: Blocks, own0: map<nat, nat>, live0: Blocks, ptr: map<nat, nat>, size: map<nat, nat>, blk: Blocks,
               own: map<nat, nat>, base: nat, ring: seq<nat>, live: Blocks, k: nat, n: nat, p: nat)
    requires HeapOk(ptr, size, blk, own, base, ring, live) && k < |ring| && n >= 1
    requires ring[k] in size && size[ring[k]] >= n && live == live0
    requires Extended(blk0, own0, live0, blk, own, n, p)
    ensures NoneFits(blk0, live0, n) && own.Keys == own0.Keys + Range(p, Ask(n))
    ensures ring[k] + size[ring[k]] - n < p + Ask(n) <= ring[k] + size[ring[k]]
  {
    InSize(ptr, size, blk, own, base, ring, live, k);
    assert Kind(blk, live, ring, ring[k]);
    assert AroundOk(blk0, live0, blk, p, Ask(n), ring[k]);
    hide Listed;
    hide Sized;
  }

  /** What malloc() knows of the block it takes. */
  lemma TakeFacts(ptr: map<nat, nat>, size: map<nat, nat>, blk: Blocks, own: map<nat, nat>, base: nat, ring: seq<nat>,
                  live: Blocks, j: nat)
    requires Listed(blk, own, base, ring, live) && Chain(ptr, ring, base) && Sized(size, blk, base) && 1 <= j < |ring|
    ensures base <= ring[j - 1] && base < ring[j] && ring[j - 1] in Unlinked(ring, j)
    ensures ring[j] in blk && ring[j] in size && size[ring[j]] == blk[ring[j]]
    ensures ring[j] in ptr && ptr[ring[j]] == Nxt(ring, j)
  {
    assert Linked(ptr, ring, j) && Gap(blk, ring, j);
    UnlinkedIn(ring, j, ring[j - 1]);
    CoverBase(blk, own, base, ring[j]);
  }

  lemma SplitSized(size: map<nat, nat>, blk: Blocks, base: nat, p: nat, q: nat, n: nat)
    requires Sized(size, blk, base) && base < p < q
    ensures Sized(Split(size, p, q, n), Split(blk, p, q, n), base)
  {
  }

  // ---------------------------------------------------------------- going round the list

  function Succ(n: nat, k: nat): (r: nat)
    requires k < n
    ensures r < n
  {
    if k + 1 < n then k + 1 else 0
  }

  /** prevp is header j of the list, p the next one and freep header f. */
  ghost predicate Seat(ring: seq<nat>, j: nat, f: nat, prevp: nat, p: nat, freep: nat) {
    && j < |ring| && f < |ring| && ring[j] == prevp && ring[f] == freep && ring[Succ(|ring|, j)] == p
  }

  ghost predicate Big(size: map<nat, nat>, ring: seq<nat>, k: nat, n: nat)
    requires k < |ring|
  {
    ring[k] in size && size[ring[k]] >= n
  }

  /** The headers after f up to j are too small. */
  ghost predicate Searched(size: map<nat, nat>, ring: seq<nat>, f: nat, j: nat, n: nat)
    requires f < |ring| && j < |ring|
  {
    forall k :: 0 <= k < |ring| && 1 <= Way(|ring|, f, k) <= Way(|ring|, f, j) ==> !Big(size, ring, k, n)
  }

  /** No block in the list has n units. */
  ghost predicate NoneFits(blk: Blocks, live: Blocks, n: nat) {
    forall b :: b in blk && b !in live ==> blk[b] < n
  }

  lemma WaySucc(n: nat, k: nat, t: nat)
    requires k < n && t < n && k != t
    ensures Way(n, Succ(n, k), t) == Way(n, k, t) - 1
  {
  }

  lemma InSize(ptr: map<nat, nat>, size: map<nat, nat>, blk: Blocks, own: map<nat, nat>, base: nat, ring: seq<nat>,
               live: Blocks, k: nat)
    requires HeapOk(ptr, size, blk, own, base, ring, live) && k < |ring|
    ensures ring[k] in size && (k == 0 ==> size[ring[k]] == 0)
            && (k > 0 ==> ring[k] in blk && blk[ring[k]] == size[ring[k]])
  {
    if k > 0 {
      assert Gap(blk, ring, k);
    }
  }

  lemma SomeFits(ptr: map<nat, nat>, size: map<nat, nat>, blk: Blocks, own: map<nat, nat>, base: nat, ring: seq<nat>,
                 live: Blocks, k: nat, n: nat)
    requires HeapOk(ptr, size, blk, own, base, ring, live) && k < |ring| && Big(size, ring, k, n) && n >= 1
    ensures !NoneFits(blk, live, n) && k > 0
  {
    InSize(ptr, size, blk, own, base, ring, live, k);
    assert Kind(blk, live, ring, ring[k]);
  }

  lemma LinkOf(ptr: map<nat, nat>, size: map<nat, nat>, blk: Blocks, own: map<nat, nat>, base: nat, ring: seq<nat>,
               live: Blocks, k: nat)
    requires HeapOk(ptr, size, blk, own, base, ring, live) && k < |ring|
    ensures ring[k] in ptr && ptr[ring[k]] == ring[Succ(|ring|, k)]
  {
    assert Linked(ptr, ring, k);
  }

  lemma NotSearched(size: map<nat, nat>, ring: seq<nat>, f: nat, n: nat)
    requires f < |ring|
    ensures Searched(size, ring, f, f, n)
  {
  }

  lemma SamePlace(ptr: map<nat, nat>, size: map<nat, nat>, blk: Blocks, own: map<nat, nat>, base: nat, ring: seq<nat>,
                  live: Blocks, j: nat, k: nat)
    requires HeapOk(ptr, size, blk, own, base, ring, live) && j < |ring| && k < |ring| && ring[j] == ring[k]
    ensures j == k
  {
  }

  lemma AllSmall(ptr: map<nat, nat>, size: map<nat, nat>, blk: Blocks, own: map<nat, nat>, base: nat, ring: seq<nat>,
                 live: Blocks, f: nat, j: nat, n: nat)
    requires HeapOk(ptr, size, blk, own, base, ring, live) && f < |ring| && j < |ring|
    requires Succ(|ring|, j) == f && Searched(size, ring, f, j, n) && !Big(size, ring, f, n)
    ensures NoneFits(blk, live, n)
  {
    forall b | b in blk && b !in live
      ensures blk[b] < n
    {
      assert Kind(blk, live, ring, b);
      var k :| 0 <= k < |ring| && ring[k] == b;
      assert k == f || 1 <= Way(|ring|, f, k) <= Way(|ring|, f, j);
      assert !Big(size, ring, k, n);
    }
  }

  lemma HoldsBig(ptr: map<nat, nat>, size: map<nat, nat>, blk: Blocks, own: map<nat, nat>, base: nat, ring: seq<nat>,
                 live: Blocks, k: nat, n: nat)
    requires HeapOk(ptr, size, blk, own, base, ring, live) && k < |ring| && Holds(blk, ring[k], n)
    ensures Big(size, ring, k, n)
  {
  }

  lemma SearchMore(size: map<nat, nat>, ring: seq<nat>, f: nat, j: nat, n: nat)
    requires f < |ring| && j < |ring| && Succ(|ring|, j) != f && !Big(size, ring, Succ(|ring|, j), n)
    ensures Searched(size, ring, f, j, n) ==> Searched(size, ring, f, Succ(|ring|, j), n)
  {
    var jp := Succ(|ring|, j);
    assert Way(|ring|, f, jp) == Way(|ring|, f, j) + 1;
    forall k | 0 <= k < |ring| && Searched(size, ring, f, j, n) && 1 <= Way(|ring|, f, k) <= Way(|ring|, f, jp)
      ensures !Big(size, ring, k, n)
    {
      if Way(|ring|, f, k) == Way(|ring|, f, jp) {
        assert k == jp;
      }
    }
  }
}
