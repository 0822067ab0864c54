/** The storage allocator of user/umalloc.c.  Addresses count header-sized units.  The free
    list is a cycle in address order that starts at the static header base; every unit that
    sbrk() has granted belongs to exactly one block, free or handed out. */
module Umalloc {

  /** Block headers with their sizes in units. */
  type Blocks = map<nat, nat>

  // ---------------------------------------------------------------- blocks cover the heap

  /** Unit u belongs to the block it is recorded for. */
  ghost predicate UnitOk(blk: Blocks, own: map<nat, nat>, base: nat, u: nat)
    requires u in own
  {
    base < u && own[u] in blk && own[u] <= u < own[u] + blk[own[u]]
  }

  ghost predicate BlockOk(blk: Blocks, own: map<nat, nat>, b: nat)
    requires b in blk
  {
    blk[b] >= 1 && forall u :: b <= u < b + blk[b] ==> u in own && own[u] == b
  }

  /** The blocks are disjoint and together are exactly the units in own. */
  ghost predicate Cover(blk: Blocks, own: map<nat, nat>, base: nat) {
    && (forall u :: u in own ==> UnitOk(blk, own, base, u))
    && (forall b :: b in blk ==> BlockOk(blk, own, b))
  }

  lemma CoverApart(blk: Blocks, own: map<nat, nat>, base: nat, b: nat, c: nat)
    requires Cover(blk, own, base) && b in blk && c in blk && b < c
    ensures base < b && blk[b] >= 1 && blk[c] >= 1 && b + blk[b] <= c
  {
    assert BlockOk(blk, own, b) && BlockOk(blk, own, c);
    assert own[c] == c && own[b] == b;
    assert UnitOk(blk, own, base, b);
  }

  lemma CoverBase(blk: Blocks, own: map<nat, nat>, base: nat, b: nat)
    requires Cover(blk, own, base) && b in blk
    ensures base < b && blk[b] >= 1
  {
    assert BlockOk(blk, own, b);
    assert own[b] == b;
    assert UnitOk(blk, own, base, b);
  }

  /** Block c is appended to the adjacent block b. */
  function Merge(blk: Blocks, b: nat, c: nat): Blocks
    requires b in blk && c in blk && b != c
  {
    (blk - {c})[b := blk[b] + blk[c]]
  }

  ghost function Reown(own: map<nat, nat>, c: nat, b: nat): map<nat, nat> {
    map u | u in own :: if own[u] == c then b else own[u]
  }

  lemma MergeCover(blk: Blocks, own: map<nat, nat>, base: nat, b: nat, c: nat)
    requires Cover(blk, own, base) && b in blk && c in blk && b + blk[b] == c && b != c
    ensures Cover(Merge(blk, b, c), Reown(own, c, b), base)
  {
    var blk', own' := Merge(blk, b, c), Reown(own, c, b);
    forall u | u in own'
      ensures UnitOk(blk', own', base, u)
    {
      assert UnitOk(blk, own, base, u);
    }
    forall x | x in blk'
      ensures BlockOk(blk', own', x)
    {
      assert BlockOk(blk, own, x) && BlockOk(blk, own, c);
    }
  }

  /** The n units of block p from q on become a block of their own. */
  function Split(blk: Blocks, p: nat, q: nat, n: nat): Blocks
    requires p <= q
  {
    blk[p := q - p][q := n]
  }

  ghost function SplitOwn(own: map<nat, nat>, p: nat, q: nat): map<nat, nat> {
    map u | u in own :: if own[u] == p && u >= q then q else own[u]
  }

  lemma SplitCover(blk: Blocks, own: map<nat, nat>, base: nat, p: nat, q: nat, n: nat)
    requires Cover(blk, own, base) && p in blk && p < q && q + n == p + blk[p] && n >= 1
    ensures q !in blk && Cover(Split(blk, p, q, n), SplitOwn(own, p, q), base)
  {
    assert BlockOk(blk, own, p);
    if q in blk {
      CoverApart(blk, own, base, p, q);
      assert false;
    }
    var blk', own' := Split(blk, p, q, n), SplitOwn(own, p, q);
    forall u | u in own'
      ensures UnitOk(blk', own', base, u)
    {
      assert UnitOk(blk, own, base, u);
    }
    forall x | x in blk'
      ensures BlockOk(blk', own', x)
    {
      if x != q {
        assert BlockOk(blk, own, x);
      }
    }
  }

  /** n units from p on. */
  ghost function Range(p: nat, n: nat): (r: set<nat>)
    ensures forall u :: u in r <==> p <= u < p + n
  {
    if n == 0 then {} else Range(p, n - 1) + {p + n - 1}
  }

  /** sbrk() grants n new units from p on. */
  ghost function GrantOwn(own: map<nat, nat>, p: nat, n: nat): map<nat, nat> {
    map u | u in own.Keys + Range(p, n) :: if u in Range(p, n) then p else own[u]
  }

  lemma GrantCover(blk: Blocks, own: map<nat, nat>, base: nat, p: nat, n: nat)
    requires Cover(blk, own, base) && base < p && n >= 1 && own.Keys !! Range(p, n)
    ensures p !in blk && Cover(blk[p := n], GrantOwn(own, p, n), base)
  {
    hide Range;
    assert p in Range(p, n);
    assert p in blk ==> BlockOk(blk, own, p);
    var blk', own' := blk[p := n], GrantOwn(own, p, n);
    forall u | u in own'
      ensures UnitOk(blk', own', base, u)
    {
      if u in own {
        assert UnitOk(blk, own, base, u);
      }
    }
    forall b | b in blk'
      ensures BlockOk(blk', own', b)
    {
      GrantBlock(blk, own, base, p, n, b);
    }
  }

  lemma GrantBlock(blk: Blocks, own: map<nat, nat>, base: nat, p: nat, n: nat, b: nat)
    requires Cover(blk, own, base) && n >= 1 && own.Keys !! Range(p, n) && b in blk[p := n]
    ensures BlockOk(blk[p := n], GrantOwn(own, p, n), b)
  {
    hide Range;
    if b != p {
      assert BlockOk(blk, own, b);
    }
    hide Cover;
  }

  // ---------------------------------------------------------------- the free list

  /** The header after the k-th one, going round. */
  function Nxt(ring: seq<nat>, k: nat): nat
    requires k < |ring|
  {
    if k + 1 < |ring| then ring[k + 1] else ring[0]
  }

  ghost predicate Linked(ptr: map<nat, nat>, ring: seq<nat>, k: nat)
    requires k < |ring|
  {
    ring[k] in ptr && ptr[ring[k]] == Nxt(ring, k)
  }

  ghost predicate Ascending(ring: seq<nat>) {
    forall j, k :: 0 <= j < k < |ring| ==> ring[j] < ring[k]
  }

  /** The list is one cycle in address order, and base is its lowest header. */
  ghost predicate Chain(ptr: map<nat, nat>, ring: seq<nat>, base: nat) {
    && |ring| > 0 && ring[0] == base && Ascending(ring)
    && forall k :: 0 <= k < |ring| ==> Linked(ptr, ring, k)
  }

  /** The free block at k ends before the next one starts. */
  ghost predicate Gap(blk: Blocks, ring: seq<nat>, k: nat)
    requires k < |ring|
  {
    ring[k] in blk && (k + 1 < |ring| ==> ring[k] + blk[ring[k]] < ring[k + 1])
  }

  ghost predicate Gaps(blk: Blocks, ring: seq<nat>) {
    forall k :: 1 <= k < |ring| ==> Gap(blk, ring, k)
  }

  /** Every block is handed out or in the list, and not both. */
  ghost predicate Kind(blk: Blocks, live: Blocks, ring: seq<nat>, b: nat)
    requires b in blk
  {
    (b in live <==> b !in ring) && (b in live ==> live[b] == blk[b])
  }

  ghost predicate Kinds(blk: Blocks, live: Blocks, ring: seq<nat>) {
    (forall b :: b in blk ==> Kind(blk, live, ring, b)) && live.Keys <= blk.Keys
  }

  /** The headers hold the sizes. */
  ghost predicate Sized(size: map<nat, nat>, blk: Blocks, base: nat) {
    base in size && size[base] == 0 && forall b :: b in blk ==> b in size && size[b] == blk[b]
  }

  // ---------------------------------------------------------------- where a block goes

  /** ring[t] is the last header below bp. */
  ghost predicate Place(ring: seq<nat>, bp: nat, t: nat) {
    t < |ring| && ring[t] < bp && (t + 1 < |ring| ==> bp < ring[t + 1])
  }

  lemma {:induction false} PlaceExists(ring: seq<nat>, bp: nat, n: nat) returns (t: nat)
    requires Ascending(ring) && 0 < n <= |ring| && ring[0] < bp && bp !in ring
    requires n < |ring| ==> bp < ring[n]
    ensures Place(ring, bp, t)
  {
    if ring[n - 1] < bp {
      t := n - 1;
    } else {
      assert ring[n - 1] != bp;
      t := PlaceExists(ring, bp, n - 1);
    }
  }

  /** The loop condition of free(): the search stops at header k of the list. */
  predicate Stops(p: nat, next: nat, bp: nat) {
    (bp > p && bp < next) || (p >= next && (bp > p || bp < next))
  }

  /** free() stops at the place of the block, and nowhere else. */
  lemma StopsAtPlace(ring: seq<nat>, bp: nat, t: nat, k: nat)
    requires Ascending(ring) && Place(ring, bp, t) && k < |ring| && ring[0] < bp && bp !in ring
    ensures Stops(ring[k], Nxt(ring, k), bp) <==> k == t
  {
    if k < t {
      assert ring[k + 1] <= ring[t];
    } else if k > t {
      assert ring[t + 1] <= ring[k];
    }
  }

  /** The way from k to t round the list. */
  function Way(n: nat, k: nat, t: nat): nat
    requires k < n && t < n
  {
    if k <= t then t - k else n - k + t
  }

  lemma WayStep(n: nat, k: nat, t: nat)
    requires k < n && t < n && k != t
    ensures var k' := if k + 1 < n then k + 1 else 0; Way(n, k', t) < Way(n, k, t)
  {
  }

  // ---------------------------------------------------------------- the list after free()

  /** The list with bp put in after position t: the next header is dropped if bp absorbs it,
      and bp is not put in if its predecessor absorbs it. */
  function Insert(ring: seq<nat>, t: nat, bp: nat, up: bool, low: bool): seq<nat>
    requires t < |ring| && (up ==> t + 1 < |ring|)
  {
    ring[..t + 1] + (if low then [] else [bp]) + ring[if up then t + 2 else t + 1..]
  }

  /** The pointer fields that free() writes. */
  function InsertPtr(ptr: map<nat, nat>, ring: seq<nat>, t: nat, bp: nat, up: bool, low: bool): map<nat, nat>
    requires t < |ring| && (up ==> t + 1 < |ring|)
  {
    var after := if up then Nxt(ring, t + 1) else Nxt(ring, t);
    ptr[bp := after][ring[t] := if low then after else bp]
  }

  lemma InsertChain(ptr: map<nat, nat>, ring: seq<nat>, base: nat, t: nat, bp: nat, up: bool, low: bool)
    requires Chain(ptr, ring, base) && Place(ring, bp, t) && bp !in ring && (up ==> t + 1 < |ring|)
    ensures Chain(InsertPtr(ptr, ring, t, bp, up, low), Insert(ring, t, bp, up, low), base)
  {
    InsertAscending(ring, t, bp, up, low);
    var ring', ptr' := Insert(ring, t, bp, up, low), InsertPtr(ptr, ring, t, bp, up, low);
    forall k | 0 <= k < |ring'|
      ensures Linked(ptr', ring', k)
    {
      InsertLinked(ptr, ring, base, t, bp, up, low, k);
    }
  }

  lemma InsertAscending(ring: seq<nat>, t: nat, bp: nat, up: bool, low: bool)
    requires Ascending(ring) && Place(ring, bp, t) && (up ==> t + 1 < |ring|)
    ensures Ascending(Insert(ring, t, bp, up, low))
  {
    var r := Insert(ring, t, bp, up, low);
    forall j, k | 0 <= j < k < |r|
      ensures r[j] < r[k]
    {
      InsertAt(ring, t, bp, up, low, j);
      InsertAt(ring, t, bp, up, low, k);
    }
  }

  /** Where the k-th header of the new list comes from. */
  lemma InsertAt(ring: seq<nat>, t: nat, bp: nat, up: bool, low: bool, k: nat)
    requires t < |ring| && (up ==> t + 1 < |ring|) && k < |Insert(ring, t, bp, up, low)|
    ensures var a := t + 1 + if low then 0 else 1;
            var shift := (if up then 1 else 0) - if low then 0 else 1;
            && |Insert(ring, t, bp, up, low)| == |ring| - shift
            && (k <= t ==> Insert(ring, t, bp, up, low)[k] == ring[k])
            && (t < k < a ==> Insert(ring, t, bp, up, low)[k] == bp)
            && (a <= k ==> k + shift < |ring| && Insert(ring, t, bp, up, low)[k] == ring[k + shift])
  {
  }

  lemma InsertLinked(ptr: map<nat, nat>, ring: seq<nat>, base: nat, t: nat, bp: nat, up: bool, low: bool, k: nat)
    requires Chain(ptr, ring, base) && Place(ring, bp, t) && bp !in ring && (up ==> t + 1 < |ring|)
    requires k < |Insert(ring, t, bp, up, low)|
    ensures Linked(InsertPtr(ptr, ring, t, bp, up, low), Insert(ring, t, bp, up, low), k)
  {
    var r := Insert(ring, t, bp, up, low);
    InsertAt(ring, t, bp, up, low, k);
    InsertAt(ring, t, bp, up, low, 0);
    if k + 1 < |r| {
      InsertAt(ring, t, bp, up, low, k + 1);
    }
    assert forall j :: 0 <= j < |ring| ==> Linked(ptr, ring, j);
    var shift := (if up then 1 else 0) - if low then 0 else 1;
    if k < t {
      assert Linked(ptr, ring, k);
    } else if k > t && r[k] != bp {
      assert Linked(ptr, ring, k + shift);
    }
  }

  // ---------------------------------------------------------------- the blocks after free()

  /** bp touches the free block above it. */
  predicate Up(blk: Blocks, ring: seq<nat>, t: nat, bp: nat)
    requires bp in blk
  {
    t + 1 < |ring| && bp + blk[bp] == ring[t + 1]
  }

  /** The free block below touches bp. */
  predicate Low(blk: Blocks, ring: seq<nat>, t: nat, bp: nat) {
    1 <= t < |ring| && ring[t] in blk && ring[t] + blk[ring[t]] == bp
  }

  function Blk1(blk: Blocks, ring: seq<nat>, t: nat, bp: nat): Blocks
    requires bp in blk
  {
    if Up(blk, ring, t, bp) && ring[t + 1] in blk && ring[t + 1] != bp then Merge(blk, bp, ring[t + 1]) else blk
  }

  function Blk2(blk: Blocks, ring: seq<nat>, t: nat, bp: nat): Blocks
    requires bp in blk
  {
    var blk1 := Blk1(blk, ring, t, bp);
    if Low(blk, ring, t, bp) && ring[t] in blk1 && bp in blk1 && ring[t] != bp then Merge(blk1, ring[t], bp) else blk1
  }

  ghost function Own2(blk: Blocks, own: map<nat, nat>, ring: seq<nat>, t: nat, bp: nat): map<nat, nat>
    requires bp in blk
  {
    var own1 := if Up(blk, ring, t, bp) then Reown(own, ring[t + 1], bp) else own;
    if Low(blk, ring, t, bp) then Reown(own1, bp, ring[t]) else own1
  }

  /** What holds between calls of the list, the blocks and the blocks handed out. */
  ghost predicate Listed(blk: Blocks, own: map<nat, nat>, base: nat, ring: seq<nat>, live: Blocks) {
    && Cover(blk, own, base) && |ring| > 0 && ring[0] == base && Ascending(ring)
    && Gaps(blk, ring) && Kinds(blk, live, ring)
  }

  /** The facts about the neighbours of bp that free() relies on. */
  lemma Neighbours(blk: Blocks, own: map<nat, nat>, base: nat, ring: seq<nat>, live: Blocks, t: nat, bp: nat)
    requires Listed(blk, own, base, ring, live) && bp in live && Place(ring, bp, t)
    ensures bp in blk && bp !in ring && base < bp && base <= ring[t]
    ensures t + 1 < |ring| ==> ring[t + 1] in blk && bp + blk[bp] <= ring[t + 1]
    ensures t >= 1 ==> ring[t] in blk && ring[t] + blk[ring[t]] <= bp
  {
    assert Kind(blk, live, ring, bp);
    CoverBase(blk, own, base, bp);
    if t + 1 < |ring| {
      assert Gap(blk, ring, t + 1);
      CoverApart(blk, own, base, bp, ring[t + 1]);
    }
    if t >= 1 {
      assert Gap(blk, ring, t);
      CoverApart(blk, own, base, ring[t], bp);
    }
  }

  lemma FreeCover(blk: Blocks, own: map<nat, nat>, base: nat, ring: seq<nat>, live: Blocks, t: nat, bp: nat)
    requires Listed(blk, own, base, ring, live) && bp in live && Place(ring, bp, t) && bp in blk
    ensures Cover(blk, own, base) && Cover(Blk2(blk, ring, t, bp), Own2(blk, own, ring, t, bp), base)
    ensures Own2(blk, own, ring, t, bp).Keys == own.Keys
  {
    hide Cover;
    Neighbours(blk, own, base, ring, live, t, bp);
    hide Listed;
    var blk1 := Blk1(blk, ring, t, bp);
    var own1 := if Up(blk, ring, t, bp) then Reown(own, ring[t + 1], bp) else own;
    if Up(blk, ring, t, bp) {
      MergeCover(blk, own, base, bp, ring[t + 1]);
    }
    if Low(blk, ring, t, bp) {
      MergeCover(blk1, own1, base, ring[t], bp);
    }
  }

  /** The size of a block after the merges. */
  lemma Blk2At(blk: Blocks, own: map<nat, nat>, base: nat, ring: seq<nat>, live: Blocks, t: nat, bp: nat, b: nat)
    requires Listed(blk, own, base, ring, live) && bp in live && Place(ring, bp, t) && bp in blk
    ensures var up, low := Up(blk, ring, t, bp), Low(blk, ring, t, bp);
            var merged := (if low then blk[ring[t]] else 0) + blk[bp]
                          + if up && ring[t + 1] in blk then blk[ring[t + 1]] else 0;
            && (b == (if low then ring[t] else bp) ==>
                  b in Blk2(blk, ring, t, bp) && Blk2(blk, ring, t, bp)[b] == merged)
            && (b in blk && b != bp && !(low && b == ring[t]) && !(up && b == ring[t + 1]) ==>
                  b in Blk2(blk, ring, t, bp) && Blk2(blk, ring, t, bp)[b] == blk[b])
  {
    Neighbours(blk, own, base, ring, live, t, bp);
  }

  /** A block of blk' is one of blk, or holds the n units from p on; what it has above them was a
      free block before. */
  ghost predicate AroundOk(blk: Blocks, live: Blocks, blk': Blocks, p: nat, n: nat, b: nat)
    requires b in blk'
  {
    || (b in blk && blk'[b] == blk[b])
    || (&& b <= p && p + n <= b + blk'[b]
        && (p + n == b + blk'[b] || (p + n in blk && p + n !in live && p + n + blk[p + n] == b + blk'[b])))
  }

  ghost predicate Around(blk: Blocks, live: Blocks, blk': Blocks, p: nat, n: nat) {
    forall b :: b in blk' ==> AroundOk(blk, live, blk', p, n, b)
  }

  /** free() changes no block but the one that holds bp afterwards. */
  lemma FreeAround(blk: Blocks, own: map<nat, nat>, base: nat, ring: seq<nat>, live: Blocks, t: nat, bp: nat)
    requires Listed(blk, own, base, ring, live) && bp in live && Place(ring, bp, t) && bp in blk
    ensures Around(blk, live, Blk2(blk, ring, t, bp), bp, blk[bp])
  {
    Neighbours(blk, own, base, ring, live, t, bp);
    if t + 1 < |ring| {
      assert Kind(blk, live, ring, ring[t + 1]);
    }
    hide Listed;
  }

  /** Below and above the place of bp the list is as it was. */
  lemma FreeGapFar(blk: Blocks, own: map<nat, nat>, base: nat, ring: seq<nat>, live: Blocks, t: nat, bp: nat, k: nat)
    requires Listed(blk, own, base, ring, live) && bp in live && Place(ring, bp, t) && bp in blk
    requires 1 <= k < |ring| && k != t && !(Up(blk, ring, t, bp) && k == t + 1)
    ensures ring[k] in Blk2(blk, ring, t, bp) && ring[k] in blk && Blk2(blk, ring, t, bp)[ring[k]] == blk[ring[k]]
    ensures k + 1 < |ring| ==> ring[k] + blk[ring[k]] < ring[k + 1]
  {
    Neighbours(blk, own, base, ring, live, t, bp);
    assert Gap(blk, ring, k);
    Blk2At(blk, own, base, ring, live, t, bp, ring[k]);
    hide Blk2;
  }

  /** The block that holds bp after the merges ends before the next free block. */
  lemma FreeGapNear(blk: Blocks, own: map<nat, nat>, base: nat, ring: seq<nat>, live: Blocks, t: nat, bp: nat, b: nat,
                    next: nat)
    requires Listed(blk, own, base, ring, live) && bp in live && Place(ring, bp, t) && bp in blk
    requires b == if Low(blk, ring, t, bp) then ring[t] else bp
    requires next == t + 1 + if Up(blk, ring, t, bp) then 1 else 0
    ensures b in Blk2(blk, ring, t, bp)
    ensures next < |ring| ==> b + Blk2(blk, ring, t, bp)[b] < ring[next]
  {
    Neighbours(blk, own, base, ring, live, t, bp);
    Blk2At(blk, own, base, ring, live, t, bp, b);
    assert t + 1 < |ring| ==> Gap(blk, ring, t + 1);
    hide Listed;
    hide Blk2;
  }

  /** A header of the new list that is not next to bp, with the next one, is as in the old list. */
  lemma InsertFar(ring: seq<nat>, t: nat, bp: nat, up: bool, low: bool, k: nat) returns (j: nat)
    requires t < |ring| && (up ==> t + 1 < |ring|) && k < |Insert(ring, t, bp, up, low)|
    requires k < t || k > if low then t else t + 1
    ensures j < |ring| && (j > 0 <==> k > 0) && j != t && !(up && j == t + 1)
    ensures var r := Insert(ring, t, bp, up, low);
            r[k] == ring[j] && (k + 1 < |r| <==> j + 1 < |ring|) && (k + 1 < |r| ==> r[k + 1] == ring[j + 1])
  {
    InsertAt(ring, t, bp, up, low, k);
    if k + 1 < |Insert(ring, t, bp, up, low)| {
      InsertAt(ring, t, bp, up, low, k + 1);
    }
    hide Insert;
    j := if k < t then k else k + ((if up then 1 else 0) - if low then 0 else 1);
  }

  /** The header that holds bp, and the next one. */
  lemma InsertNear(ring: seq<nat>, t: nat, bp: nat, up: bool, low: bool, k: nat, b: nat, next: nat)
    requires t < |ring| && (up ==> t + 1 < |ring|) && k == (if low then t else t + 1)
    requires b == (if low then ring[t] else bp) && next == t + 1 + if up then 1 else 0
    ensures var r := Insert(ring, t, bp, up, low);
            k < |r| && r[k] == b && (k + 1 < |r| <==> next < |ring|) && (k + 1 < |r| ==> r[k + 1] == ring[next])
  {
    InsertAt(ring, t, bp, up, low, k);
    if k + 1 < |Insert(ring, t, bp, up, low)| {
      InsertAt(ring, t, bp, up, low, k + 1);
    }
  }

  lemma FreeGaps(blk: Blocks, own: map<nat, nat>, base: nat, ring: seq<nat>, live: Blocks, t: nat, bp: nat, k: nat)
    requires Listed(blk, own, base, ring, live) && bp in live && Place(ring, bp, t) && bp in blk
    requires 1 <= k < |Insert(ring, t, bp, Up(blk, ring, t, bp), Low(blk, ring, t, bp))|
    ensures Gap(Blk2(blk, ring, t, bp), Insert(ring, t, bp, Up(blk, ring, t, bp), Low(blk, ring, t, bp)), k)
  {
    var up, low := Up(blk, ring, t, bp), Low(blk, ring, t, bp);
    if k < t || k > (if low then t else t + 1) {
      var j := InsertFar(ring, t, bp, up, low, k);
      FreeGapFar(blk, own, base, ring, live, t, bp, j);
    } else if k == t && !low {
      Neighbours(blk, own, base, ring, live, t, bp);
      Blk2At(blk, own, base, ring, live, t, bp, ring[t]);
      InsertAt(ring, t, bp, up, low, t);
      InsertAt(ring, t, bp, up, low, t + 1);
    } else {
      var b, next := if low then ring[t] else bp, t + 1 + if up then 1 else 0;
      InsertNear(ring, t, bp, up, low, k, b, next);
      FreeGapNear(blk, own, base, ring, live, t, bp, b, next);
    }
    hide Listed;
    hide Insert;
    hide Blk2;
  }

  lemma FreeKind(blk: Blocks, own: map<nat, nat>, base: nat, ring: seq<nat>, live: Blocks, t: nat, bp: nat, b: nat)
    requires Listed(blk, own, base, ring, live) && bp in live && Place(ring, bp, t) && bp in blk
    requires b in Blk2(blk, ring, t, bp)
    ensures Kind(Blk2(blk, ring, t, bp), live - {bp},
                 Insert(ring, t, bp, Up(blk, ring, t, bp), Low(blk, ring, t, bp)), b)
  {
    Neighbours(blk, own, base, ring, live, t, bp);
    var up, low := Up(blk, ring, t, bp), Low(blk, ring, t, bp);
    var r := Insert(ring, t, bp, up, low);
    assert Kind(blk, live, ring, b);
    InsertIn(ring, t, bp, up, low, b);
  }

  lemma InsertIn(ring: seq<nat>, t: nat, bp: nat, up: bool, low: bool, b: nat)
    requires Ascending(ring) && t < |ring| && (up ==> t + 1 < |ring|)
    ensures b in Insert(ring, t, bp, up, low) <==> (b in ring && !(up && b == ring[t + 1])) || (!low && b == bp)
  {
    var rest := ring[if up then t + 2 else t + 1..];
    assert ring == ring[..t + 1] + (if up then [ring[t + 1]] else []) + rest;
    if up {
      assert ring[t + 1] !in rest && ring[t + 1] !in ring[..t + 1];
    }
  }

  /** free() keeps the list: a cycle of blocks that do not touch, with the freed one in it. */
  lemma FreeListed(blk: Blocks, own: map<nat, nat>, base: nat, ring: seq<nat>, live: Blocks, t: nat, bp: nat)
    requires Listed(blk, own, base, ring, live) && bp in live && Place(ring, bp, t) && bp in blk
    ensures Listed(Blk2(blk, ring, t, bp), Own2(blk, own, ring, t, bp), base,
                   Insert(ring, t, bp, Up(blk, ring, t, bp), Low(blk, ring, t, bp)), live - {bp})
  {
    var up, low := Up(blk, ring, t, bp), Low(blk, ring, t, bp);
    var blk', r := Blk2(blk, ring, t, bp), Insert(ring, t, bp, up, low);
    FreeCover(blk, own, base, ring, live, t, bp);
    InsertAscending(ring, t, bp, up, low);
    InsertAt(ring, t, bp, up, low, 0);
    forall k | 1 <= k < |r|
      ensures Gap(blk', r, k)
    {
      FreeGaps(blk, own, base, ring, live, t, bp, k);
    }
    forall b | b in blk'
      ensures Kind(blk', live - {bp}, r, b)
    {
      FreeKind(blk, own, base, ring, live, t, bp, b);
    }
    FreeLive(blk, own, base, ring, live, t, bp);
  }

  /** The size fields that free() writes. */
  function InsertSize(size: map<nat, nat>, ring: seq<nat>, t: nat, bp: nat, up: bool, low: bool): map<nat, nat>
    requires t < |ring| && (up ==> t + 1 < |ring|) && bp in size && ring[t] in size && (up ==> ring[t + 1] in size)
  {
    var size1 := if up then size[bp := size[bp] + size[ring[t + 1]]] else size;
    if low then size1[ring[t] := size1[ring[t]] + size1[bp]] else size1
  }

  lemma InsertSized(size: map<nat, nat>, blk: Blocks, own: map<nat, nat>, base: nat, ring: seq<nat>, live: Blocks,
                    t: nat, bp: nat)
    requires Listed(blk, own, base, ring, live) && bp in live && Place(ring, bp, t) && bp in blk
             && Sized(size, blk, base)
    ensures var up, low := Up(blk, ring, t, bp), Low(blk, ring, t, bp);
            && ring[t] in size && (up ==> ring[t + 1] in size)
            && Sized(InsertSize(size, ring, t, bp, up, low), Blk2(blk, ring, t, bp), base)
  {
    Neighbours(blk, own, base, ring, live, t, bp);
  }

  /** The conditions that free() tests say whether bp touches its neighbours. */
  lemma Touches(ptr: map<nat, nat>, size: map<nat, nat>, blk: Blocks, own: map<nat, nat>, base: nat, ring: seq<nat>,
                live: Blocks, t: nat, bp: nat)
    requires Listed(blk, own, base, ring, live) && Chain(ptr, ring, base) && Sized(size, blk, base)
    requires bp in live && Place(ring, bp, t) && bp in blk
    ensures bp in size && ring[t] in size && ring[t] in ptr && ring[t] != bp && live[bp] == blk[bp]
    ensures bp + size[bp] == ptr[ring[t]] <==> Up(blk, ring, t, bp)
    ensures ring[t] + size[ring[t]] == bp <==> Low(blk, ring, t, bp)
    ensures ptr[ring[t]] == Nxt(ring, t)
    ensures Up(blk, ring, t, bp) ==> ring[t + 1] in ptr && ptr[ring[t + 1]] == Nxt(ring, t + 1) && ring[t + 1] in size
  {
    Neighbours(blk, own, base, ring, live, t, bp);
    assert Linked(ptr, ring, t) && Kind(blk, live, ring, bp);
    if t + 1 < |ring| {
      assert Linked(ptr, ring, t + 1);
    }
  }

  lemma FreeLive(blk: Blocks, own: map<nat, nat>, base: nat, ring: seq<nat>, live: Blocks, t: nat, bp: nat)
    requires Listed(blk, own, base, ring, live) && bp in live && Place(ring, bp, t) && bp in blk
    ensures (live - {bp}).Keys <= Blk2(blk, ring, t, bp).Keys
  {
    Neighbours(blk, own, base, ring, live, t, bp);
    forall b | b in live && b != bp
      ensures b in Blk2(blk, ring, t, bp)
    {
      assert Kind(blk, live, ring, b);
      if t + 1 < |ring| {
        assert ring[t + 1] in ring;
      }
    }
  }

  // ---------------------------------------------------------------- the list after malloc()

  /** The list without header j. */
  function Unlinked(ring: seq<nat>, j: nat): seq<nat>
    requires j < |ring|
  {
    ring[..j] + ring[j + 1..]
  }

  lemma UnlinkChain(ptr: map<nat, nat>, ring: seq<nat>, base: nat, j: nat)
    requires Chain(ptr, ring, base) && 1 <= j < |ring|
    ensures Chain(ptr[ring[j - 1] := Nxt(ring, j)], Unlinked(ring, j), base)
  {
    var r, ptr' := Unlinked(ring, j), ptr[ring[j - 1] := Nxt(ring, j)];
    forall k | 0 <= k < |r|
      ensures Linked(ptr', r, k)
    {
      assert Linked(ptr, ring, if k < j then k else k + 1);
      assert k < j - 1 ==> Linked(ptr, ring, k);
    }
  }

  /** A block of the right size leaves the list. */
  lemma TakeWhole(blk: Blocks, own: map<nat, nat>, base: nat, ring: seq<nat>, live: Blocks, j: nat)
    requires Listed(blk, own, base, ring, live) && 1 <= j < |ring|
    ensures ring[j] in blk && ring[j] !in live
    ensures Listed(blk, own, base, Unlinked(ring, j), live[ring[j] := blk[ring[j]]])
  {
    hide Cover;
    assert Gap(blk, ring, j) && Kind(blk, live, ring, ring[j]);
    hide Gaps;
    hide Kinds;
    hide Ascending;
    UnlinkedOrder(ring, j);
    UnlinkedGaps(blk, ring, j);
    UnlinkedKinds(blk, live, ring, j);
    hide Unlinked;
  }

  lemma UnlinkedOrder(ring: seq<nat>, j: nat)
    requires Ascending(ring) && 1 <= j < |ring|
    ensures Ascending(Unlinked(ring, j)) && |Unlinked(ring, j)| > 0 && Unlinked(ring, j)[0] == ring[0]
  {
  }

  lemma UnlinkedGaps(blk: Blocks, ring: seq<nat>, j: nat)
    requires Gaps(blk, ring) && Ascending(ring) && 1 <= j < |ring|
    ensures Gaps(blk, Unlinked(ring, j))
  {
    var r := Unlinked(ring, j);
    forall k | 1 <= k < |r|
      ensures Gap(blk, r, k)
    {
      assert Gap(blk, ring, if k < j then k else k + 1);
    }
  }

  lemma UnlinkedKinds(blk: Blocks, live: Blocks, ring: seq<nat>, j: nat)
    requires Kinds(blk, live, ring) && Ascending(ring) && j < |ring| && ring[j] in blk
    ensures Kinds(blk, live[ring[j] := blk[ring[j]]], Unlinked(ring, j))
  {
    hide Ascending;
    hide Unlinked;
    forall b | b in blk
      ensures Kind(blk, live[ring[j] := blk[ring[j]]], Unlinked(ring, j), b)
    {
      assert Kind(blk, live, ring, b);
      UnlinkedIn(ring, j, b);
    }
  }

  lemma UnlinkedIn(ring: seq<nat>, j: nat, b: nat)
    requires Ascending(ring) && j < |ring|
    ensures b in Unlinked(ring, j) <==> b in ring && b != ring[j]
  {
    assert ring == ring[..j] + [ring[j]] + ring[j + 1..];
    assert ring[j] !in ring[..j] && ring[j] !in ring[j + 1..];
  }

  /** The tail of a larger block is handed out, and the list stays as it is. */
  lemma TakeTail(blk: Blocks, own: map<nat, nat>, base: nat, ring: seq<nat>, live: Blocks, j: nat, q: nat, n: nat)
    requires Listed(blk, own, base, ring, live) && 1 <= j < |ring| && ring[j] in blk
    requires n >= 1 && ring[j] < q && q + n == ring[j] + blk[ring[j]]
    ensures q !in blk && q !in live
    ensures Listed(Split(blk, ring[j], q, n), SplitOwn(own, ring[j], q), base, ring, live[q := n])
    ensures SplitOwn(own, ring[j], q).Keys == own.Keys
  {
    var p := ring[j];
    SplitCover(blk, own, base, p, q, n);
    assert Kind(blk, live, ring, p);
    var blk', live' := Split(blk, p, q, n), live[q := n];
    forall k | 1 <= k < |ring|
      ensures Gap(blk', ring, k)
    {
      assert Gap(blk, ring, k);
    }
    forall b | b in blk'
      ensures Kind(blk', live', ring, b)
    {
      if b in blk {
        assert Kind(blk, live, ring, b);
      } else {
        CoverBase(blk, own, base, p);
        NotListed(blk, ring, base, q);
      }
    }
  }

  /** Only blocks are in the list, after base. */
  lemma NotListed(blk: Blocks, ring: seq<nat>, base: nat, q: nat)
    requires Gaps(blk, ring) && |ring| > 0 && ring[0] == base && q !in blk && q != base
    ensures q !in ring
  {
    forall k | 0 <= k < |ring|
      ensures ring[k] != q
    {
      if k >= 1 {
        assert Gap(blk, ring, k);
      }
    }
  }

  /** The block that sbrk() grants counts as handed out until morecore() frees it. */
  lemma GrantListed(blk: Blocks, own: map<nat, nat>, base: nat, ring: seq<nat>, live: Blocks, p: nat, n: nat)
    requires Listed(blk, own, base, ring, live) && base < p && n >= 1 && own.Keys !! Range(p, n)
    ensures p !in blk && p !in live && Listed(blk[p := n], GrantOwn(own, p, n), base, ring, live[p := n])
    ensures GrantOwn(own, p, n).Keys == own.Keys + Range(p, n)
  {
    GrantCover(blk, own, base, p, n);
    NotListed(blk, ring, base, p);
    var blk', live' := blk[p := n], live[p := n];
    forall k | 1 <= k < |ring|
      ensures Gap(blk', ring, k)
    {
      assert Gap(blk, ring, k);
    }
    forall b | b in blk'
      ensures Kind(blk', live', ring, b)
    {
      if b in blk {
        assert Kind(blk, live, ring, b);
      }
    }
  }

  /** Blocks handed out do not overlap, and lie in the granted units. */
  lemma LiveDisjoint(blk: Blocks, own: map<nat, nat>, base: nat, ring: seq<nat>, live: Blocks, b: nat, c: nat)
    requires Listed(blk, own, base, ring, live) && b in live && c in live && b != c
    ensures b + live[b] <= c || c + live[c] <= b
    ensures Range(b, live[b]) <= own.Keys
  {
    assert Kind(blk, live, ring, b) && Kind(blk, live, ring, c);
    if b < c {
      CoverApart(blk, own, base, b, c);
    } else {
      CoverApart(blk, own, base, c, b);
    }
    assert BlockOk(blk, own, b);
  }
}
