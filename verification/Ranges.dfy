/** Ranges of pages of a user page table: what mapping, unmapping and growing them means for the
    map, for the contents of memory, and for the places and the number of physical pages. */
module Ranges {
  import opened Sv39
  import opened Kalloc
  import opened Spaces
  import opened Counting

  /** Memory outside the given pages is unchanged. */
  ghost predicate Kept(mem: Memory, mem': Memory, mine: set<nat>) {
    forall p :: p in mem && p !in mine ==> p in mem' && mem'[p] == mem[p]
  }

  predicate LeafPerm(perm: Flags) { perm.r || perm.w || perm.x }

  /** PA2PTE(pa) | perm | PTE_V. */
  function MkPte(ppn: nat, perm: Flags): Pte { Pte(ppn, perm.(v := true)) }

  /** pt with k consecutive pages mapped to consecutive physical pages. */
  ghost function MapRange(pt: map<nat, Pte>, vpn: nat, k: nat, ppn: nat, perm: Flags): (r: map<nat, Pte>) {
    if k == 0 then pt else MapRange(pt, vpn, k - 1, ppn, perm)[vpn + k - 1 := MkPte(ppn + (k - 1), perm)]
  }

  lemma MapRangeNone(pt: map<nat, Pte>, vpn: nat, ppn: nat, perm: Flags)
    ensures MapRange(pt, vpn, 0, ppn, perm) == pt && Paths(vpn, 0) == {}
  {
  }

  lemma {:induction false} MapRangeAt(pt: map<nat, Pte>, vpn: nat, k: nat, ppn: nat, perm: Flags, v: nat)
    ensures var r := MapRange(pt, vpn, k, ppn, perm);
            && (v in r <==> v in pt || vpn <= v < vpn + k)
            && (vpn <= v < vpn + k ==> r[v] == MkPte(ppn + (v - vpn), perm))
            && (v in r && !(vpn <= v < vpn + k) ==> r[v] == pt[v])
  {
    if k > 0 {
      MapRangeAt(pt, vpn, k - 1, ppn, perm, v);
    }
  }

  lemma MapRangeStep(pt: map<nat, Pte>, vpn: nat, k: nat, ppn: nat, perm: Flags, pt1: map<nat, Pte>, pt2: map<nat, Pte>)
    requires pt1 == MapRange(pt, vpn, k, ppn, perm) && pt2 == pt1[vpn + k := MkPte(ppn + k, perm)]
    ensures pt2 == MapRange(pt, vpn, k + 1, ppn, perm)
  {
  }

  lemma UnmapRangeStep(pt: map<nat, Pte>, vpn: nat, k: nat, pt1: map<nat, Pte>, pt2: map<nat, Pte>)
    requires pt1 == UnmapRange(pt, vpn, k) && pt2 == pt1 - {vpn + k}
    ensures pt2 == UnmapRange(pt, vpn, k + 1)
  {
  }

  /** pt with k consecutive pages unmapped. */
  ghost function UnmapRange(pt: map<nat, Pte>, vpn: nat, k: nat): (r: map<nat, Pte>) {
    if k == 0 then pt else UnmapRange(pt, vpn, k - 1) - {vpn + k - 1}
  }

  lemma {:induction false} UnmapRangeAt(pt: map<nat, Pte>, vpn: nat, k: nat, v: nat)
    ensures var r := UnmapRange(pt, vpn, k);
            && (v in r <==> v in pt && !(vpn <= v < vpn + k))
            && (v in r ==> r[v] == pt[v])
  {
    if k > 0 {
      UnmapRangeAt(pt, vpn, k - 1, v);
    }
  }

  /** The page of the last of size bytes from va on. */
  function LastPage(va: nat, size: nat): (r: nat)
    requires size > 0
    ensures va / PGSIZE <= r && r * PGSIZE < va + size <= (r + 1) * PGSIZE
  {
    (va + size - 1) / PGSIZE
  }

  lemma PageUpWhole(lo: nat, k: nat)
    ensures PageUp(lo * PGSIZE) == lo && PageUp((lo + k) * PGSIZE) == lo + k
            && Extra(lo * PGSIZE, (lo + k) * PGSIZE) == k
  {
  }

  lemma PageUpGrows(a: nat, b: nat)
    ensures a <= b ==> PageUp(a) <= PageUp(b)
  {
  }

  /** The pages that a process of the first size lacks for the second size. */
  function Extra(oldsz: nat, newsz: nat): nat {
    if PageUp(oldsz) <= PageUp(newsz) then PageUp(newsz) - PageUp(oldsz) else 0
  }

  // ---------------------------------------------------------------- growing

  /** PTE_W|PTE_X|PTE_R|PTE_U. */
  const USER := Flags(false, true, true, true, true)

  function ZeroPage(): Page { Bytes(seq(PGSIZE, i => 0)) }

  /** pt is pt0 with k new consecutive pages. */
  ghost predicate Fresh(pt0: map<nat, Pte>, pt: map<nat, Pte>, lo: nat, k: nat) {
    && (forall v :: v in pt0 ==> v in pt && pt[v] == pt0[v])
    && (forall v :: v in pt ==> v in pt0 || lo <= v < lo + k)
    && (forall v :: lo <= v < lo + k ==> v in pt && v !in pt0)
  }

  /** The k pages from lo on are zero and fully accessible to the user. */
  ghost predicate Zeroed(mem: Memory, pt: map<nat, Pte>, lo: nat, k: nat) {
    forall v :: lo <= v < lo + k ==> v in pt && pt[v].flags == Flags(true, true, true, true, true)
                                     && pt[v].ppn in mem && mem[pt[v].ppn] == ZeroPage()
  }

  /** The first k pages have the flags and contents they had in another address space. */
  ghost predicate Copied(mem0: Memory, pt0: map<nat, Pte>, mem: Memory, pt: map<nat, Pte>, k: nat) {
    forall v :: 0 <= v < k ==> v in pt && v in pt0 && pt[v].flags == pt0[v].flags
                               && pt0[v].ppn in mem0 && pt[v].ppn in mem && mem[pt[v].ppn] == mem0[pt0[v].ppn]
  }

  /** No page of the pool is mapped. */
  ghost predicate Apart(pt: map<nat, Pte>, pool: set<nat>) {
    forall v :: v in pt ==> pt[v].ppn !in pool
  }

  lemma FreshStep(pt0: map<nat, Pte>, pt: map<nat, Pte>, lo: nat, k: nat, pte: Pte, pt': map<nat, Pte>)
    requires Fresh(pt0, pt, lo, k) && lo + k !in pt && pt' == pt[lo + k := pte]
    ensures Fresh(pt0, pt', lo, k + 1)
  {
  }

  lemma CopiedKept(mem0: Memory, pt0: map<nat, Pte>, mem: Memory, pt: map<nat, Pte>, mem': Memory, k: nat,
                   pool: set<nat>)
    requires Copied(mem0, pt0, mem, pt, k) && Apart(pt, pool) && Kept(mem, mem', pool)
    ensures Copied(mem0, pt0, mem', pt, k)
  {
  }

  lemma FreshNext(pt0: map<nat, Pte>, pt: map<nat, Pte>, lo: nat, k: nat)
    requires Fresh(pt0, pt, lo, k) && lo + k !in pt0
    ensures lo + k !in pt
  {
  }

  lemma ZeroedKept(mem: Memory, pt: map<nat, Pte>, mem': Memory, lo: nat, k: nat, pool: set<nat>)
    requires Zeroed(mem, pt, lo, k) && Apart(pt, pool) && Kept(mem, mem', pool)
    ensures Zeroed(mem', pt, lo, k)
  {
  }

  lemma KeptTwice(mem: Memory, mem1: Memory, mem2: Memory, mine: set<nat>, mine1: set<nat>)
    requires Kept(mem, mem1, mine) && Kept(mem1, mem2, mine1) && mine1 <= mine
    ensures Kept(mem, mem2, mine)
  {
  }

  /** Unmapping the new pages gives back the old map. */
  lemma FreshUndo(pt0: map<nat, Pte>, pt: map<nat, Pte>, lo: nat, k: nat)
    requires Fresh(pt0, pt, lo, k)
    ensures UnmapRange(pt, lo, k) == pt0
  {
    forall v: nat
      ensures v in UnmapRange(pt, lo, k) <==> v in pt0
      ensures v in pt0 ==> v in UnmapRange(pt, lo, k) && UnmapRange(pt, lo, k)[v] == pt0[v]
    {
      UnmapRangeAt(pt, lo, k, v);
    }
  }

  lemma NothingMapped(pt: map<nat, Pte>, n: nat)
    requires forall v :: v in pt ==> v < n
    ensures UnmapRange(pt, 0, n) == map[]
  {
    forall v: nat
      ensures v !in UnmapRange(pt, 0, n)
    {
      UnmapRangeAt(pt, 0, n, v);
    }
  }

  // ---------------------------------------------------------------- places

  /** Page p is the table's own page at one of n page numbers from vpn on. */
  ghost predicate LeafIn(x: Place, r: nat, vpn: nat, n: nat) { x.Leaf? && x.r == r && vpn <= x.v < vpn + n }

  /** The places after n pages have been unmapped, and their own pages freed or kept in hand. */
  ghost function Vacate(place: Places, r: nat, vpn: nat, n: nat, to: Place): Places {
    map p | p in place :: if LeafIn(place[p], r, vpn, n) then to else place[p]
  }

  lemma VacateNone(place: Places, r: nat, vpn: nat, to: Place)
    ensures Vacate(place, r, vpn, 0, to) == place
  {
  }

  /** One more page unmapped: its own page, if it is one, moves. */
  lemma VacateStep(tabs: Tabs, place: Places, r: nat, pt: map<nat, Pte>, vpn: nat, k: nat, to: Place, place1: Places,
                   pt1: map<nat, Pte>)
    requires r in tabs && pt == tabs[r].pt && (forall p :: p in place ==> PlaceOk(tabs, place, p))
    requires place1 == Vacate(place, r, vpn, k, to) && (to == Free || to == Held)
    requires vpn + k in pt && vpn + k in pt1 && pt1[vpn + k] == pt[vpn + k]
    ensures Owned(place1, r, pt1, vpn + k) <==> Owned(place, r, pt, vpn + k)
    ensures Owned(place, r, pt, vpn + k) ==> place1[pt[vpn + k].ppn := to] == Vacate(place, r, vpn, k + 1, to)
    ensures !Owned(place, r, pt, vpn + k) ==> place1 == Vacate(place, r, vpn, k + 1, to)
  {
    forall p | p in place
      ensures LeafIn(place[p], r, vpn, k + 1) <==>
                LeafIn(place[p], r, vpn, k) || (Owned(place, r, pt, vpn + k) && p == pt[vpn + k].ppn)
    {
      assert PlaceOk(tabs, place, p);
    }
  }

  /** Free pages have become page table pages of r, or its own pages at k page numbers from lo on. */
  ghost predicate Grew(place: Places, place': Places, r: nat, lo: nat, k: nat) {
    && place'.Keys == place.Keys
    && forall p :: p in place ==> place'[p] == place[p] || GrewAt(place[p], place'[p], r, lo, k)
  }

  ghost predicate GrewAt(x: Place, y: Place, r: nat, lo: nat, k: nat) {
    x == Free && (y == Node(r) || LeafIn(y, r, lo, k))
  }

  lemma GrewTwice(place: Places, place1: Places, place2: Places, r: nat, lo: nat, k: nat, lo1: nat, k1: nat)
    requires Grew(place, place1, r, lo, k) && Grew(place1, place2, r, lo1, k1)
    requires (lo1 == lo + k) || k == 0 || k1 == 0
    ensures k1 == 0 ==> Grew(place, place2, r, lo, k)
    ensures k == 0 ==> Grew(place, place2, r, lo1, k1)
    ensures lo1 == lo + k ==> Grew(place, place2, r, lo, k + k1)
  {
  }

  /** A loose page, taken, mapped and made the table's own. */
  lemma GrewOwn(place: Places, place2: Places, r: nat, v: nat, p: nat)
    requires p in place && place[p] == Free && Grew(place[p := Held], place2, r, 0, 0)
    ensures p in place2 && place2[p] == Held
    ensures Grew(place, place2[p := Leaf(r, v)], r, v, 1) && Grew(place, place2[p := Free], r, 0, 0)
  {
  }

  /** Growing and giving the new pages back leaves at most page table pages behind. */
  lemma GrewUndo(tabs: Tabs, place: Places, place1: Places, r: nat, lo: nat, k: nat)
    requires Grew(place, place1, r, lo, k) && (forall p :: p in place ==> PlaceOk(tabs, place, p))
    requires r in tabs && forall v :: lo <= v < lo + k ==> v !in tabs[r].pt
    ensures Grew(place, Vacate(place1, r, lo, k, Free), r, 0, 0)
  {
    forall p | p in place
      ensures !LeafIn(place[p], r, lo, k)
    {
      assert PlaceOk(tabs, place, p);
    }
  }

  /** What a table can grow into: the free pages and its own page table pages. */
  ghost function Spare(place: Places, r: nat): set<nat> {
    set p | p in place && (place[p] == Free || place[p] == Node(r))
  }

  lemma GrewSpare(place: Places, place': Places, r: nat, lo: nat, k: nat)
    requires Grew(place, place', r, lo, k)
    ensures Spare(place', r) <= Spare(place, r)
  {
  }

  /** No table maps a page that another one can grow into. */
  lemma SpareApart(mem: Memory, free: set<nat>, tabs: Tabs, place: Places, r: nat, q: nat)
    requires World(mem, free, tabs, place) && q in tabs
    ensures Apart(tabs[q].pt, Spare(place, r))
  {
    hide World;
    hide Tree;
    hide Reads;
    TabOf(mem, free, tabs, place, q);
    forall v | v in tabs[q].pt
      ensures tabs[q].pt[v].ppn !in Spare(place, r)
    {
      assert LeafAt(place, q, v, tabs[q].pt[v]);
    }
  }

  ghost predicate AllOwned(place: Places, r: nat, pt: map<nat, Pte>, lo: nat, k: nat) {
    forall v :: lo <= v < lo + k ==> Owned(place, r, pt, v)
  }

  /** Pages of a table's own stay that when it grows. */
  lemma OwnedGrew(place: Places, place': Places, r: nat, pt: map<nat, Pte>, pt': map<nat, Pte>, lo: nat, k: nat,
                  lo1: nat, k1: nat)
    requires AllOwned(place, r, pt, lo, k) && Grew(place, place', r, lo1, k1)
    requires forall v :: v in pt ==> v in pt' && pt'[v] == pt[v]
    ensures AllOwned(place', r, pt', lo, k)
  {
    forall v | lo <= v < lo + k
      ensures Owned(place', r, pt', v)
    {
      assert Owned(place, r, pt, v);
    }
  }

  /** The pages that unmapping a range can write to. */
  ghost function Hit(place: Places, r: nat, vpn: nat, n: nat): set<nat> {
    set p | p in place && (place[p] == Node(r) || LeafIn(place[p], r, vpn, n))
  }

  // ---------------------------------------------------------------- counting pages

  /** The positions of the page table pages below the root that page vpn needs. */
  ghost function Path(vpn: nat): set<Pos> { {PosOf(vpn, 1), PosOf(vpn, 0)} }

  /** Those that n pages from lo on need. */
  ghost function Paths(lo: nat, n: nat): set<Pos> {
    if n == 0 then {} else Paths(lo, n - 1) + Path(lo + n - 1)
  }

  lemma {:induction false} PathsAt(lo: nat, n: nat, p: Pos)
    ensures p in Paths(lo, n) <==> exists v :: lo <= v < lo + n && p in Path(v)
  {
    if n > 0 {
      PathsAt(lo, n - 1, p);
      if p in Path(lo + n - 1) {
        assert lo <= lo + n - 1 < lo + n;
      }
    }
  }

  lemma PathsNext(lo: nat, k: nat)
    ensures Paths(lo, k + 1) == Paths(lo, k) + Path(lo + k)
  {
  }

  lemma {:induction false} PathsGrow(lo: nat, k: nat, n: nat)
    requires k <= n
    ensures Paths(lo, k) <= Paths(lo, n)
  {
    if k < n {
      PathsGrow(lo, k, n - 1);
    }
  }

  /** Page table pages at the positions ps have been added where they were missing, and k pages
      have been used besides, all from the free ones. */
  ghost predicate Laid(have: set<Pos>, have': set<Pos>, free: set<nat>, free': set<nat>, ps: set<Pos>, k: nat) {
    have' == have + ps && |free| == |free'| + k + |ps - have|
  }

  /** There are too few free pages for that. */
  ghost predicate Scarce(have: set<Pos>, free: set<nat>, ps: set<Pos>, k: nat) {
    |free| < k + |ps - have|
  }

  lemma LaidNone(have: set<Pos>, free: set<nat>)
    ensures Laid(have, have, free, free, {}, 0)
  {
    assert {} - have == {};
  }

  lemma LaidMore(have: set<Pos>, have1: set<Pos>, have2: set<Pos>, free: set<nat>, free1: set<nat>, free2: set<nat>,
                 ps: set<Pos>, qs: set<Pos>, k: nat, l: nat)
    requires Laid(have, have1, free, free1, ps, k) && Laid(have1, have2, free1, free2, qs, l)
    ensures Laid(have, have2, free, free2, ps + qs, k + l)
  {
    var a, b := ps - have, qs - have1;
    assert (ps + qs) - have == a + b && a !! b;
  }

  /** What is scarce after a part was scarce for the whole from the start. */
  lemma LaidScarce(have: set<Pos>, have1: set<Pos>, free: set<nat>, free1: set<nat>, ps: set<Pos>, qs: set<Pos>,
                   all: set<Pos>, k: nat, l: nat, m: nat)
    requires Laid(have, have1, free, free1, ps, k) && Scarce(have1, free1, qs, l) && ps + qs <= all && k + l <= m
    ensures Scarce(have, free, all, m)
  {
    var a, b := ps - have, qs - have1;
    assert (ps + qs) - have == a + b && a !! b;
    Fewer(a + b, all - have);
  }

  /** One page table page added at a position that had none. */
  lemma LaidTable(have: set<Pos>, free: set<nat>, c: nat, p: Pos)
    requires c in free && p !in have
    ensures Laid(have, have + {p}, free, free - {c}, {p}, 0)
  {
    assert {p} - have == {p};
  }

  /** A position that the table has already. */
  lemma LaidAgain(have: set<Pos>, have': set<Pos>, free: set<nat>, free': set<nat>, ps: set<Pos>, k: nat, p: Pos)
    requires Laid(have, have', free, free', ps, k) && p in have'
    ensures Laid(have, have', free, free', ps + {p}, k)
  {
    assert (ps + {p}) - have == ps - have;
  }

  lemma ScarceOne(have: set<Pos>, p: Pos)
    requires p !in have
    ensures Scarce(have, {}, {p}, 0)
  {
    assert {p} - have == {p};
  }

  /** The positions on the way to vpn, from below the root down to a level. */
  ghost function PathTo(vpn: nat, level: nat): set<Pos>
    requires level <= 2
  {
    if level == 2 then {} else if level == 1 then {PosOf(vpn, 1)} else Path(vpn)
  }

  lemma PathStep(vpn: nat, level: nat)
    requires 0 < level <= 2
    ensures PathTo(vpn, level) + {PosOf(vpn, level - 1)} == PathTo(vpn, level - 1) <= Path(vpn)
  {
  }

  /** Adding page c at entry i of node n adds one position, which was not there. */
  lemma PositionAdded(mem: Memory, r: nat, nodes: Nodes, n: nat, i: nat, c: nat)
    requires Tree(mem, r, nodes) && n in nodes && nodes[n].level > 0 && i < ENTRIES && c !in nodes
    requires IsTable(mem, n) && !IsValid(mem[n].ptes[i])
    ensures Child(nodes[n], i) !in nodes.Values
    ensures AddPos(nodes, n, i, c).Values == nodes.Values + {Child(nodes[n], i)}
  {
    forall p | p in nodes.Values
      ensures p != Child(nodes[n], i)
    {
      var m :| m in nodes && nodes[m] == p;
      PosIsNew(mem, r, nodes, n, i, m);
    }
    var nodes' := AddPos(nodes, n, i, c);
    forall p | p in nodes.Values + {Child(nodes[n], i)}
      ensures p in nodes'.Values
    {
      if p in nodes.Values {
        var m :| m in nodes && nodes[m] == p;
        assert nodes'[m] == p;
      } else {
        assert nodes'[c] == p;
      }
    }
  }

  // ---------------------------------------------------------------- before and after

  /** The whole state: memory, page tables, places and free pages. */
  datatype Snap = Snap(mem: Memory, tabs: Tabs, place: Places, free: set<nat>)

  ghost predicate Sound(s: Snap) { World(s.mem, s.free, s.tabs, s.place) }

  /** The positions of the page table pages of table r. */
  ghost function Have(s: Snap, r: nat): set<Pos>
    requires r in s.tabs
  {
    s.tabs[r].nodes.Values
  }

  /** Only table r is different. */
  ghost predicate OnlyTab(tabs: Tabs, tabs': Tabs, r: nat) {
    r in tabs && r in tabs' && tabs' == tabs[r := tabs'[r]]
  }

  /** From a to b table r took free pages: page table pages at the positions ps that were missing,
      and k pages of its own from page number lo on.  No other page moved, and memory changed
      only in pages that were free or its page table pages. */
  ghost predicate Took(a: Snap, b: Snap, r: nat, ps: set<Pos>, lo: nat, k: nat) {
    && OnlyTab(a.tabs, b.tabs, r) && Grew(a.place, b.place, r, lo, k) && Kept(a.mem, b.mem, Spare(a.place, r))
    && Laid(Have(a, r), Have(b, r), a.free, b.free, ps, k)
  }

  lemma TookNone(a: Snap, r: nat, lo: nat)
    requires r in a.tabs
    ensures Took(a, a, r, {}, lo, 0)
  {
    LaidNone(Have(a, r), a.free);
  }

  lemma TookTab(a: Snap, b: Snap, r: nat, ps: set<Pos>, lo: nat, k: nat)
    requires Took(a, b, r, ps, lo, k)
    ensures r in a.tabs && r in b.tabs && b.tabs.Keys == a.tabs.Keys
    ensures forall q :: q in a.tabs && q != r ==> b.tabs[q] == a.tabs[q]
  {
  }

  lemma TookAt(a: Snap, b: Snap, r: nat, ps: set<Pos>, lo: nat)
    requires Took(a, b, r, ps, 0, 0)
    ensures Took(a, b, r, ps, lo, 0)
  {
  }

  lemma TookTwice(a: Snap, b: Snap, c: Snap, r: nat, ps: set<Pos>, qs: set<Pos>, lo: nat, k: nat, l: nat)
    requires Took(a, b, r, ps, lo, k) && Took(b, c, r, qs, lo + k, l)
    ensures Took(a, c, r, ps + qs, lo, k + l)
  {
    GrewTwice(a.place, b.place, c.place, r, lo, k, lo + k, l);
    GrewSpare(a.place, b.place, r, lo, k);
    KeptTwice(a.mem, b.mem, c.mem, Spare(a.place, r), Spare(b.place, r));
    LaidMore(Have(a, r), Have(b, r), Have(c, r), a.free, b.free, c.free, ps, qs, k, l);
  }

  lemma TookAgain(a: Snap, b: Snap, r: nat, ps: set<Pos>, p: Pos)
    requires Took(a, b, r, ps, 0, 0) && p in Have(b, r)
    ensures Took(a, b, r, ps + {p}, 0, 0)
  {
    LaidAgain(Have(a, r), Have(b, r), a.free, b.free, ps, 0, p);
  }

  lemma LinkKept(mem: Memory, n: nat, i: nat, c: nat, mine: set<nat>)
    requires IsTable(mem, n) && i < ENTRIES && c != n && c in mine && n in mine
    ensures Kept(mem, LinkNode(mem, n, i, c), mine)
  {
  }

  lemma SpareBoth(place: Places, r: nat, c: nat, n: nat)
    requires c in place && place[c] == Free && n in place && place[n] == Node(r)
    ensures c in Spare(place, r) && n in Spare(place, r)
  {
  }

  lemma GrewNode(place: Places, r: nat, c: nat)
    requires c in place && place[c] == Free
    ensures Grew(place, place[c := Node(r)], r, 0, 0)
  {
  }

  /** walk() has added page table page c at entry i of node n. */
  lemma TookTable(a: Snap, b: Snap, r: nat, n: nat, i: nat, c: nat)
    requires Sound(a) && r in a.tabs && n in a.tabs[r].nodes && a.tabs[r].nodes[n].level > 0 && i < ENTRIES
    requires IsTable(a.mem, n) && !IsValid(a.mem[n].ptes[i]) && c !in a.tabs[r].nodes && c != n
    requires b.mem == LinkNode(a.mem, n, i, c) && c in a.free && b.free == a.free - {c}
    requires b.tabs == a.tabs[r := Tab(AddPos(a.tabs[r].nodes, n, i, c), a.tabs[r].pt)]
    requires c in a.place && a.place[c] == Free && b.place == a.place[c := Node(r)]
    ensures Took(a, b, r, {Child(a.tabs[r].nodes[n], i)}, 0, 0)
  {
    hide Tree;
    hide Reads;
    hide Child;
    hide World;
    TabOf(a.mem, a.free, a.tabs, a.place, r);
    assert n in a.place && a.place[n] == Node(r);
    PositionAdded(a.mem, r, a.tabs[r].nodes, n, i, c);
    hide TabIn;
    LaidTable(Have(a, r), a.free, c, Child(a.tabs[r].nodes[n], i));
    hide Laid;
    hide AddPos;
    SpareBoth(a.place, r, c, n);
    LinkKept(a.mem, n, i, c, Spare(a.place, r));
    hide Kept;
    hide LinkNode;
    hide Spare;
    GrewNode(a.place, r, c);
    hide Grew;
  }

  /** Pages in somebody's hands stay there. */
  lemma TookHeld(a: Snap, b: Snap, r: nat, ps: set<Pos>, p: nat)
    requires Took(a, b, r, ps, 0, 0) && (p in a.place ==> a.place[p] == Held)
    ensures p in b.place ==> b.place[p] == Held
  {
  }

  lemma TookEnough(a: Snap, b: Snap, r: nat, ps: set<Pos>, lo: nat, k: nat)
    requires Took(a, b, r, ps, lo, k)
    ensures !Scarce(Have(a, r), a.free, ps, k)
  {
  }

  lemma TookScarce(a: Snap, b: Snap, r: nat, ps: set<Pos>, qs: set<Pos>, all: set<Pos>, lo: nat, k: nat, l: nat, m: nat)
    requires Took(a, b, r, ps, lo, k) && Scarce(Have(b, r), b.free, qs, l) && ps + qs <= all && k + l <= m
    ensures Scarce(Have(a, r), a.free, all, m)
  {
    LaidScarce(Have(a, r), Have(b, r), a.free, b.free, ps, qs, all, k, l, m);
  }

  /** A leaf entry of table r has been written, in one of its page table pages. */
  lemma TookEntry(a: Snap, b: Snap, c: Snap, r: nat, ps: set<Pos>)
    requires Took(a, b, r, ps, 0, 0) && Sound(b) && OnlyTab(b.tabs, c.tabs, r) && c.tabs[r].nodes == b.tabs[r].nodes
    requires c.place == b.place && c.free == b.free && Kept(b.mem, c.mem, b.tabs[r].nodes.Keys)
    ensures Took(a, c, r, ps, 0, 0)
  {
    hide Tree;
    hide Reads;
    TabOf(b.mem, b.free, b.tabs, b.place, r);
    GrewSpare(a.place, b.place, r, 0, 0);
    assert b.tabs[r].nodes.Keys <= Spare(b.place, r);
    KeptTwice(a.mem, b.mem, c.mem, Spare(a.place, r), b.tabs[r].nodes.Keys);
  }

  /** A page taken first, mapped, and made the table's own. */
  lemma TookOwn(a: Snap, pg: Page, c: Snap, r: nat, v: nat, p: nat, ps: set<Pos>)
    requires p in a.place && a.place[p] == Free && p in a.free
    requires Took(Snap(a.mem[p := pg], a.tabs, a.place[p := Held], a.free - {p}), c, r, ps, 0, 0)
    ensures p in c.place && c.place[p] == Held && Took(a, c.(place := c.place[p := Leaf(r, v)]), r, ps, v, 1)
  {
    GrewOwn(a.place, c.place, r, v, p);
    TookPage(a, pg, c, r, p, ps);
  }

  lemma TookPage(a: Snap, pg: Page, c: Snap, r: nat, p: nat, ps: set<Pos>)
    requires p in a.place && a.place[p] == Free && p in a.free
    requires Took(Snap(a.mem[p := pg], a.tabs, a.place[p := Held], a.free - {p}), c, r, ps, 0, 0)
    ensures Kept(a.mem, c.mem, Spare(a.place, r)) && OnlyTab(a.tabs, c.tabs, r)
    ensures Laid(Have(a, r), Have(c, r), a.free, c.free, ps, 1)
  {
    assert Spare(a.place[p := Held], r) <= Spare(a.place, r);
  }

  lemma LaidBack(have: set<Pos>, have': set<Pos>, free: set<nat>, free': set<nat>, ps: set<Pos>, p: nat)
    requires Laid(have, have', free, free', ps, 1) && p !in free'
    ensures Laid(have, have', free, free' + {p}, ps, 0)
  {
  }

  lemma SpareFree(place: Places, r: nat, p: nat)
    requires p in place && place[p] == Free
    ensures p in Spare(place, r)
  {
  }

  lemma KeptOver(mem: Memory, mem': Memory, p: nat, pg: Page, mine: set<nat>)
    requires Kept(mem, mem', mine) && p in mine
    ensures Kept(mem, mem'[p := pg], mine)
  {
  }

  lemma TookMade(a: Snap, b: Snap, r: nat, ps: set<Pos>)
    requires OnlyTab(a.tabs, b.tabs, r) && Grew(a.place, b.place, r, 0, 0) && Kept(a.mem, b.mem, Spare(a.place, r))
    requires Laid(Have(a, r), Have(b, r), a.free, b.free, ps, 0)
    ensures Took(a, b, r, ps, 0, 0)
  {
  }

  /** A page taken first and given back because it could not be mapped. */
  lemma TookBack(a: Snap, pg: Page, c: Snap, r: nat, p: nat, ps: set<Pos>, junk: Page)
    requires p in a.place && a.place[p] == Free && p in a.free && p !in c.free
    requires Took(Snap(a.mem[p := pg], a.tabs, a.place[p := Held], a.free - {p}), c, r, ps, 0, 0)
    ensures Took(a, Snap(c.mem[p := junk], c.tabs, c.place[p := Free], c.free + {p}), r, ps, 0, 0)
  {
    GrewOwn(a.place, c.place, r, 0, p);
    TookPage(a, pg, c, r, p, ps);
    hide Took;
    hide Grew;
    LaidBack(Have(a, r), Have(c, r), a.free, c.free, ps, p);
    hide Laid;
    SpareFree(a.place, r, p);
    KeptOver(a.mem, c.mem, p, junk, Spare(a.place, r));
    hide Spare;
    hide Kept;
    TookMade(a, Snap(c.mem[p := junk], c.tabs, c.place[p := Free], c.free + {p}), r, ps);
  }

  lemma HeldNotFree(c: Snap, p: nat)
    requires Sound(c) && p in c.place && c.place[p] == Held
    ensures p !in c.free
  {
    hide TabIn;
    hide PlaceOk;
  }

  /** A loose page is still loose after an attempt to map it that failed. */
  lemma StillLoose(b: Snap, c: Snap, r: nat, p: nat, ps: set<Pos>)
    requires Loose(b.tabs, b.place, p) && Took(b, c, r, ps, 0, 0) && Sound(c) && c.tabs[r].pt == b.tabs[r].pt
    ensures Loose(c.tabs, c.place, p) && p !in c.free
  {
    hide World;
    TookHeld(b, c, r, ps, p);
    TookTab(b, c, r, ps, 0, 0);
    hide Took;
    HeldNotFree(c, p);
    TabOf(c.mem, c.free, c.tabs, c.place, r);
    FreeNotOf(c.mem, c.place, r, c.tabs[r], p);
    hide TabIn;
    forall q | q in c.tabs
      ensures NotOf(c.tabs[q], p)
    {
      assert NotOf(b.tabs[q], p);
    }
  }

  /** It has been mapped, once, and keeps its contents. */
  lemma NowOwned(b: Snap, c: Snap, r: nat, v: nat, p: nat, perm: Flags, ps: set<Pos>)
    requires Loose(b.tabs, b.place, p) && Took(b, c, r, ps, 0, 0) && Sound(c) && v !in b.tabs[r].pt
    requires c.tabs[r].pt == b.tabs[r].pt[v := MkPte(p, perm)] && p in b.mem
    ensures p in c.place && World(c.mem, c.free, c.tabs, c.place[p := Leaf(r, v)])
    ensures p in c.mem && c.mem[p] == b.mem[p] && Owned(c.place[p := Leaf(r, v)], r, c.tabs[r].pt, v)
  {
    hide World;
    hide Laid;
    hide Unused;
    TookHeld(b, c, r, ps, p);
    OwnStep(c.mem, c.free, c.tabs, c.place, b.tabs, r, v, p);
  }

  lemma ScarcePage(have: set<Pos>, free: set<nat>, ps: set<Pos>, p: nat)
    ensures p in free && Scarce(have, free - {p}, ps, 0) ==> Scarce(have, free, ps, 1)
    ensures Scarce(have, {}, ps, 1)
  {
  }

  /** n pages from vpn on have left table r; those that were its own are in place to. */
  ghost predicate Cut(a: Snap, b: Snap, r: nat, vpn: nat, n: nat, to: Place) {
    && OnlyTab(a.tabs, b.tabs, r) && b.tabs[r] == Tab(a.tabs[r].nodes, UnmapRange(a.tabs[r].pt, vpn, n))
    && b.place == Vacate(a.place, r, vpn, n, to) && Kept(a.mem, b.mem, Hit(a.place, r, vpn, n))
    && |b.free| == |a.free| + if to == Free then n else 0
  }

  lemma CutNone(a: Snap, r: nat, vpn: nat, to: Place)
    requires r in a.tabs
    ensures Cut(a, a, r, vpn, 0, to)
  {
    VacateNone(a.place, r, vpn, to);
    assert a.tabs == a.tabs[r := a.tabs[r]];
  }

  /** What unmapping page v alone does: its own page, if it has one, goes to another place. */
  ghost predicate CutOne(b: Snap, c: Snap, r: nat, v: nat, to: Place) {
    && r in b.tabs && v in b.tabs[r].pt && c.tabs == b.tabs[r := Tab(b.tabs[r].nodes, b.tabs[r].pt - {v})]
    && (to == Free ==> Owned(b.place, r, b.tabs[r].pt, v))
    && c.place == (if Owned(b.place, r, b.tabs[r].pt, v) then b.place[b.tabs[r].pt[v].ppn := to] else b.place)
    && Kept(b.mem, c.mem, b.tabs[r].nodes.Keys + if to == Free then {b.tabs[r].pt[v].ppn} else {})
    && |c.free| == |b.free| + if to == Free then 1 else 0
  }

  /** Clearing the entry of page v. */
  lemma CutEntry(a: Snap, b: Snap, r: nat, v: nat)
    requires r in a.tabs && v in a.tabs[r].pt && b.free == a.free
    requires b.tabs == a.tabs[r := Tab(a.tabs[r].nodes, PutPte(a.tabs[r].pt, v, ZERO))]
    requires b.place == Left(a.place, r, a.tabs[r].pt, v, ZERO) && Kept(a.mem, b.mem, a.tabs[r].nodes.Keys)
    ensures CutOne(a, b, r, v, Held)
  {
    assert a.tabs[r].nodes.Keys + {} == a.tabs[r].nodes.Keys;
  }

  /** Freeing its page then. */
  lemma CutFreed(a: Snap, b: Snap, c: Snap, r: nat, v: nat)
    requires CutOne(a, b, r, v, Held) && Owned(a.place, r, a.tabs[r].pt, v)
    requires var p := a.tabs[r].pt[v].ppn;
             && c.tabs == b.tabs && c.place == b.place[p := Free] && p !in b.free && c.free == b.free + {p}
             && c.mem == b.mem[p := Bytes(seq(PGSIZE, i => 1))]
    ensures CutOne(a, c, r, v, Free)
  {
    hide Kept;
    var p, mine := a.tabs[r].pt[v].ppn, a.tabs[r].nodes.Keys;
    KeptMore(a.mem, b.mem, mine + {}, mine + {p});
    KeptPut(b.mem, p, Bytes(seq(PGSIZE, i => 1)), mine + {p});
    KeptTwice(a.mem, b.mem, c.mem, mine + {p}, mine + {p});
  }

  lemma CutStep(a: Snap, b: Snap, c: Snap, r: nat, vpn: nat, k: nat, to: Place)
    requires Sound(a) && Cut(a, b, r, vpn, k, to) && (to == Free || to == Held) && vpn + k in a.tabs[r].pt
    requires CutOne(b, c, r, vpn + k, to)
    ensures Cut(a, c, r, vpn, k + 1, to)
  {
    hide World;
    hide Kept;
    hide Hit;
    hide Vacate;
    hide UnmapRange;
    var v := vpn + k;
    PlacesOf(a);
    UnmapNext(a.tabs[r].pt, vpn, k);
    VacateStep(a.tabs, a.place, r, a.tabs[r].pt, vpn, k, to, b.place, b.tabs[r].pt);
    UnmapRangeStep(a.tabs[r].pt, vpn, k, b.tabs[r].pt, c.tabs[r].pt);
    HitMore(a, r, vpn, k, to == Free);
    KeptMore(a.mem, b.mem, Hit(a.place, r, vpn, k), Hit(a.place, r, vpn, k + 1));
    KeptTwice(a.mem, b.mem, c.mem, Hit(a.place, r, vpn, k + 1),
              b.tabs[r].nodes.Keys + if to == Free then {b.tabs[r].pt[v].ppn} else {});
  }

  /** The next page to unmap is as it was at the start. */
  lemma CutNext(a: Snap, b: Snap, r: nat, vpn: nat, k: nat, to: Place)
    requires Sound(a) && Cut(a, b, r, vpn, k, to) && (to == Free || to == Held) && vpn + k in a.tabs[r].pt
    ensures vpn + k in b.tabs[r].pt && b.tabs[r].pt[vpn + k] == a.tabs[r].pt[vpn + k]
    ensures Owned(b.place, r, b.tabs[r].pt, vpn + k) <==> Owned(a.place, r, a.tabs[r].pt, vpn + k)
  {
    hide World;
    PlacesOf(a);
    UnmapNext(a.tabs[r].pt, vpn, k);
    VacateStep(a.tabs, a.place, r, a.tabs[r].pt, vpn, k, to, b.place, b.tabs[r].pt);
  }

  /** The pages to unmap are mapped, and the table's own if they are to be freed. */
  ghost predicate Unmappable(s: Snap, r: nat, vpn: nat, n: nat, doFree: bool)
    requires r in s.tabs
  {
    forall v :: vpn <= v < vpn + n ==>
      v in s.tabs[r].pt && (doFree ==> Owned(s.place, r, s.tabs[r].pt, v))
  }

  lemma UnmapReady(a: Snap, b: Snap, r: nat, vpn: nat, n: nat, k: nat, doFree: bool)
    requires r in a.tabs && Unmappable(a, r, vpn, n, doFree) && k < n && Sound(a)
    requires Cut(a, b, r, vpn, k, if doFree then Free else Held)
    ensures r in b.tabs && vpn + k in a.tabs[r].pt && vpn + k in b.tabs[r].pt
    ensures doFree ==> Owned(b.place, r, b.tabs[r].pt, vpn + k)
  {
    hide World;
    hide Cut;
    CutNext(a, b, r, vpn, k, if doFree then Free else Held);
    CutTab(a, b, r, vpn, k, if doFree then Free else Held);
  }

  /** The map after the loop of uvmunmap(), and where its pages lie. */
  lemma CutMap(a: Snap, b: Snap, r: nat, vpn: nat, n: nat, to: Place, doFree: bool)
    requires r in a.tabs && Unmappable(a, r, vpn, n, doFree) && Sound(a) && Cut(a, b, r, vpn, n, to)
    ensures r in b.tabs && b.tabs[r].pt == UnmapRange(a.tabs[r].pt, vpn, n) && (n > 0 ==> vpn + n <= MAXVPN)
  {
    TabOf(a.mem, a.free, a.tabs, a.place, r);
    hide World;
    hide Tree;
    hide UnmapRange;
    assert n > 0 ==> vpn + n - 1 in a.tabs[r].pt;
  }

  lemma CutTab(a: Snap, b: Snap, r: nat, vpn: nat, k: nat, to: Place)
    requires Cut(a, b, r, vpn, k, to)
    ensures r in a.tabs && r in b.tabs
  {
  }

  lemma UnmapNext(pt: map<nat, Pte>, vpn: nat, k: nat)
    requires vpn + k in pt
    ensures vpn + k in UnmapRange(pt, vpn, k) && UnmapRange(pt, vpn, k)[vpn + k] == pt[vpn + k]
  {
    UnmapRangeAt(pt, vpn, k, vpn + k);
  }

  lemma KeptPut(mem: Memory, p: nat, pg: Page, mine: set<nat>)
    requires p in mine
    ensures Kept(mem, mem[p := pg], mine)
  {
  }

  lemma KeptMore(mem: Memory, mem': Memory, mine: set<nat>, mine': set<nat>)
    requires Kept(mem, mem', mine) && mine <= mine'
    ensures Kept(mem, mem', mine')
  {
  }

  lemma HitGrows(place: Places, r: nat, vpn: nat, k: nat)
    ensures Hit(place, r, vpn, k) <= Hit(place, r, vpn, k + 1)
  {
  }

  lemma HitNodes(place: Places, r: nat, t: Tab, vpn: nat, k: nat)
    requires NodesAt(place, r, t)
    ensures t.nodes.Keys <= Hit(place, r, vpn, k)
  {
  }

  lemma HitMore(a: Snap, r: nat, vpn: nat, k: nat, own: bool)
    requires Sound(a) && r in a.tabs && vpn + k in a.tabs[r].pt && (own ==> Owned(a.place, r, a.tabs[r].pt, vpn + k))
    ensures Hit(a.place, r, vpn, k) <= Hit(a.place, r, vpn, k + 1)
    ensures a.tabs[r].nodes.Keys + (if own then {a.tabs[r].pt[vpn + k].ppn} else {}) <= Hit(a.place, r, vpn, k + 1)
  {
    hide World;
    hide Tree;
    hide Reads;
    TabOf(a.mem, a.free, a.tabs, a.place, r);
    hide LeavesAt;
    HitGrows(a.place, r, vpn, k);
    HitNodes(a.place, r, a.tabs[r], vpn, k + 1);
  }

  lemma PlacesOf(a: Snap)
    requires Sound(a)
    ensures forall p :: p in a.place ==> PlaceOk(a.tabs, a.place, p)
  {
  }

  lemma HitSpare(tabs: Tabs, place: Places, place': Places, r: nat, lo: nat, k: nat)
    requires Grew(place, place', r, lo, k) && (forall p :: p in place ==> PlaceOk(tabs, place, p))
    requires r in tabs && forall v :: lo <= v < lo + k ==> v !in tabs[r].pt
    ensures Hit(place', r, lo, k) <= Spare(place, r)
  {
    forall p | p in Hit(place', r, lo, k)
      ensures p in Spare(place, r)
    {
      assert PlaceOk(tabs, place, p);
    }
  }

  /** Taking the new pages back again leaves only page table pages taken. */
  lemma TookUndo(a: Snap, b: Snap, c: Snap, r: nat, ps: set<Pos>, lo: nat, k: nat)
    requires Sound(a) && Took(a, b, r, ps, lo, k) && Cut(b, c, r, lo, k, Free)
    requires forall v :: lo <= v < lo + k ==> v !in a.tabs[r].pt
    ensures Took(a, c, r, ps, 0, 0)
  {
    hide World;
    hide Grew;
    hide Kept;
    hide Hit;
    hide Spare;
    hide Vacate;
    hide UnmapRange;
    PlacesOf(a);
    GrewUndo(a.tabs, a.place, b.place, r, lo, k);
    HitSpare(a.tabs, a.place, b.place, r, lo, k);
    KeptTwice(a.mem, b.mem, c.mem, Spare(a.place, r), Hit(b.place, r, lo, k));
  }

  lemma OwnedMapped(place: Places, r: nat, pt: map<nat, Pte>, lo: nat, k: nat)
    requires AllOwned(place, r, pt, lo, k)
    ensures forall v :: lo <= v < lo + k ==> v in pt && Owned(place, r, pt, v)
  {
    forall v | lo <= v < lo + k
      ensures v in pt && Owned(place, r, pt, v)
    {
      assert Owned(place, r, pt, v);
    }
  }

  /** Growth stops at page k for want of pages. */
  lemma GrowStop(a: Snap, b: Snap, c: Snap, r: nat, ps: set<Pos>, qs: set<Pos>, lo: nat, k: nat, n: nat)
    requires Took(a, b, r, ps, lo, k) && Took(b, c, r, qs, 0, 0) && k < n && ps == Paths(lo, k)
    requires Scarce(Have(b, r), b.free, Path(lo + k), 1)
    ensures Took(a, c, r, ps + qs, lo, k) && Scarce(Have(a, r), a.free, Paths(lo, n), n)
  {
    hide Took;
    hide Scarce;
    hide Path;
    hide Paths;
    TookAt(b, c, r, qs, lo + k);
    TookTwice(a, b, c, r, ps, qs, lo, k, 0);
    PathsNext(lo, k);
    PathsGrow(lo, k + 1, n);
    assert ps + Path(lo + k) <= Paths(lo, n);
    TookTab(a, b, r, ps, lo, k);
    hide Have;
    TookScarce(a, b, r, ps, Path(lo + k), Paths(lo, n), lo, k, 1, n);
  }

  /** Zeroed pages of the table's own stay that when it takes more pages. */
  lemma ZeroedTook(b: Snap, c: Snap, r: nat, qs: set<Pos>, lo: nat, k: nat, lo1: nat, k1: nat)
    requires Sound(b) && Took(b, c, r, qs, lo1, k1) && Zeroed(b.mem, b.tabs[r].pt, lo, k)
    requires AllOwned(b.place, r, b.tabs[r].pt, lo, k)
    requires forall v :: v in b.tabs[r].pt ==> v in c.tabs[r].pt && c.tabs[r].pt[v] == b.tabs[r].pt[v]
    ensures Zeroed(c.mem, c.tabs[r].pt, lo, k) && AllOwned(c.place, r, c.tabs[r].pt, lo, k)
  {
    hide World;
    OwnedGrew(b.place, c.place, r, b.tabs[r].pt, c.tabs[r].pt, lo, k, lo1, k1);
    SpareApart(b.mem, b.free, b.tabs, b.place, r, r);
    ZeroedKept(b.mem, b.tabs[r].pt, c.mem, lo, k, Spare(b.place, r));
  }

  /** Table r has taken k zeroed pages of its own from lo on, and what page table pages they need. */
  ghost predicate Growing(a: Snap, b: Snap, r: nat, lo: nat, k: nat) {
    && Took(a, b, r, Paths(lo, k), lo, k) && Fresh(a.tabs[r].pt, b.tabs[r].pt, lo, k)
    && Zeroed(b.mem, b.tabs[r].pt, lo, k) && AllOwned(b.place, r, b.tabs[r].pt, lo, k)
  }

  lemma GrowingNone(a: Snap, r: nat, lo: nat)
    requires r in a.tabs
    ensures Growing(a, a, r, lo, 0)
  {
    TookNone(a, r, lo);
  }

  lemma GrowingOf(a: Snap, b: Snap, r: nat, lo: nat, k: nat)
    requires Growing(a, b, r, lo, k)
    ensures Took(a, b, r, Paths(lo, k), lo, k) && Fresh(a.tabs[r].pt, b.tabs[r].pt, lo, k)
    ensures Zeroed(b.mem, b.tabs[r].pt, lo, k) && AllOwned(b.place, r, b.tabs[r].pt, lo, k)
  {
  }

  lemma GrowingNext(a: Snap, b: Snap, r: nat, lo: nat, k: nat)
    requires Growing(a, b, r, lo, k) && lo + k !in a.tabs[r].pt
    ensures lo + k !in b.tabs[r].pt
  {
    FreshNext(a.tabs[r].pt, b.tabs[r].pt, lo, k);
  }

  lemma GrowingStep(a: Snap, b: Snap, c: Snap, r: nat, qs: set<Pos>, lo: nat, k: nat, p: nat)
    requires Sound(b) && Growing(a, b, r, lo, k) && Took(b, c, r, qs, lo + k, 1) && qs == Path(lo + k)
    requires lo + k !in b.tabs[r].pt
    requires c.tabs[r].pt == b.tabs[r].pt[lo + k := MkPte(p, USER)] && Owned(c.place, r, c.tabs[r].pt, lo + k)
    requires p in c.mem && c.mem[p] == ZeroPage()
    ensures Growing(a, c, r, lo, k + 1)
  {
    hide World;
    hide Took;
    hide Path;
    ZeroedTook(b, c, r, qs, lo, k, lo + k, 1);
    TookTwice(a, b, c, r, Paths(lo, k), qs, lo, k, 1);
    assert r in a.tabs && r in b.tabs && r in c.tabs by {
      TookTab(a, b, r, Paths(lo, k), lo, k);
      TookTab(b, c, r, qs, lo + k, 1);
    }
    FreshStep(a.tabs[r].pt, b.tabs[r].pt, lo, k, MkPte(p, USER), c.tabs[r].pt);
  }

  lemma GrowingStop(a: Snap, b: Snap, c: Snap, r: nat, qs: set<Pos>, lo: nat, k: nat, n: nat)
    requires Sound(b) && Growing(a, b, r, lo, k) && Took(b, c, r, qs, 0, 0) && c.tabs[r].pt == b.tabs[r].pt && k < n
    requires Scarce(Have(b, r), b.free, Path(lo + k), 1)
    ensures Took(a, c, r, Paths(lo, k) + qs, lo, k) && Fresh(a.tabs[r].pt, c.tabs[r].pt, lo, k)
    ensures Zeroed(c.mem, c.tabs[r].pt, lo, k) && AllOwned(c.place, r, c.tabs[r].pt, lo, k)
    ensures Scarce(Have(a, r), a.free, Paths(lo, n), n)
  {
    hide World;
    hide Took;
    hide Scarce;
    ZeroedTook(b, c, r, qs, lo, k, 0, 0);
    GrowStop(a, b, c, r, Paths(lo, k), qs, lo, k, n);
  }

  /** Table r has copies of the first k pages of table q, with their flags, in pages of its own. */
  ghost predicate Copying(a: Snap, b: Snap, q: nat, r: nat, k: nat) {
    && Took(a, b, r, Paths(0, k), 0, k) && q in a.tabs && q != r && Fresh(a.tabs[r].pt, b.tabs[r].pt, 0, k)
    && Copied(a.mem, a.tabs[q].pt, b.mem, b.tabs[r].pt, k) && AllOwned(b.place, r, b.tabs[r].pt, 0, k)
  }

  lemma CopyingNone(a: Snap, q: nat, r: nat)
    requires r in a.tabs && q in a.tabs && q != r
    ensures Copying(a, a, q, r, 0)
  {
    TookNone(a, r, 0);
  }

  lemma CopyingOf(a: Snap, b: Snap, q: nat, r: nat, k: nat)
    requires Copying(a, b, q, r, k)
    ensures Took(a, b, r, Paths(0, k), 0, k) && Fresh(a.tabs[r].pt, b.tabs[r].pt, 0, k)
    ensures Copied(a.mem, a.tabs[q].pt, b.mem, b.tabs[r].pt, k) && AllOwned(b.place, r, b.tabs[r].pt, 0, k)
  {
  }

  /** The next page: free in the child, and in the parent what it was. */
  lemma CopyingNext(a: Snap, b: Snap, q: nat, r: nat, k: nat)
    requires Sound(a) && Copying(a, b, q, r, k) && k !in a.tabs[r].pt && k in a.tabs[q].pt
             && a.tabs[q].pt[k].ppn in a.mem
    ensures k !in b.tabs[r].pt && q in b.tabs && b.tabs[q] == a.tabs[q]
    ensures var p := a.tabs[q].pt[k].ppn; p in b.mem && b.mem[p] == a.mem[p]
  {
    hide World;
    hide Copied;
    hide AllOwned;
    hide Laid;
    hide Grew;
    hide Paths;
    hide Spare;
    FreshNext(a.tabs[r].pt, b.tabs[r].pt, 0, k);
    SpareApart(a.mem, a.free, a.tabs, a.place, r, q);
  }

  /** What the table took leaves the pages that it has copied alone. */
  lemma CopiedTook(a: Snap, b: Snap, c: Snap, q: nat, r: nat, qs: set<Pos>, k: nat, lo1: nat, k1: nat)
    requires Sound(b) && Took(b, c, r, qs, lo1, k1) && q in a.tabs
             && Copied(a.mem, a.tabs[q].pt, b.mem, b.tabs[r].pt, k)
    requires AllOwned(b.place, r, b.tabs[r].pt, 0, k)
    requires forall v :: v in b.tabs[r].pt ==> v in c.tabs[r].pt && c.tabs[r].pt[v] == b.tabs[r].pt[v]
    ensures Copied(a.mem, a.tabs[q].pt, c.mem, c.tabs[r].pt, k) && AllOwned(c.place, r, c.tabs[r].pt, 0, k)
  {
    hide World;
    OwnedGrew(b.place, c.place, r, b.tabs[r].pt, c.tabs[r].pt, 0, k, lo1, k1);
    SpareApart(b.mem, b.free, b.tabs, b.place, r, r);
    CopiedKept(a.mem, a.tabs[q].pt, b.mem, b.tabs[r].pt, c.mem, k, Spare(b.place, r));
  }

  lemma CopiedNext(mem0: Memory, pt0: map<nat, Pte>, mem: Memory, pt: map<nat, Pte>, k: nat)
    requires Copied(mem0, pt0, mem, pt, k) && k in pt && k in pt0 && pt[k].flags == pt0[k].flags
    requires pt0[k].ppn in mem0 && pt[k].ppn in mem && mem[pt[k].ppn] == mem0[pt0[k].ppn]
    ensures Copied(mem0, pt0, mem, pt, k + 1)
  {
  }

  lemma OwnedNext(place: Places, r: nat, pt: map<nat, Pte>, lo: nat, k: nat)
    requires AllOwned(place, r, pt, lo, k) && Owned(place, r, pt, lo + k)
    ensures AllOwned(place, r, pt, lo, k + 1)
  {
  }

  lemma CopyingStep(a: Snap, b: Snap, c: Snap, q: nat, r: nat, qs: set<Pos>, k: nat, p: nat)
    requires Sound(b) && Copying(a, b, q, r, k) && Took(b, c, r, qs, 0 + k, 1) && qs == Path(k) && k !in b.tabs[r].pt
    requires k in a.tabs[q].pt && IsValid(a.tabs[q].pt[k]) && a.tabs[q].pt[k].ppn in a.mem
    requires c.tabs[r].pt == b.tabs[r].pt[k := MkPte(p, a.tabs[q].pt[k].flags)] && Owned(c.place, r, c.tabs[r].pt, k)
    requires p in c.mem && c.mem[p] == a.mem[a.tabs[q].pt[k].ppn]
    ensures Copying(a, c, q, r, k + 1)
  {
    hide World;
    hide Took;
    hide Path;
    hide Paths;
    hide Copied;
    hide Fresh;
    hide AllOwned;
    hide Owned;
    TookTab(a, b, r, Paths(0, k), 0, k);
    TookTab(b, c, r, qs, k, 1);
    PathsNext(0, k);
    CopiedTook(a, b, c, q, r, qs, k, k, 1);
    TookTwice(a, b, c, r, Paths(0, k), qs, 0, k, 1);
    FreshStep(a.tabs[r].pt, b.tabs[r].pt, 0, k, MkPte(p, a.tabs[q].pt[k].flags), c.tabs[r].pt);
    CopiedNext(a.mem, a.tabs[q].pt, c.mem, c.tabs[r].pt, k);
    OwnedNext(c.place, r, c.tabs[r].pt, 0, k);
  }

  lemma CopyingStop(a: Snap, b: Snap, c: Snap, q: nat, r: nat, qs: set<Pos>, k: nat, n: nat)
    requires Sound(b) && Copying(a, b, q, r, k) && Took(b, c, r, qs, 0, 0) && c.tabs[r].pt == b.tabs[r].pt && k < n
    requires Scarce(Have(b, r), b.free, Path(0 + k), 1)
    ensures Took(a, c, r, Paths(0, k) + qs, 0, k) && Fresh(a.tabs[r].pt, c.tabs[r].pt, 0, k)
    ensures Copied(a.mem, a.tabs[q].pt, c.mem, c.tabs[r].pt, k) && AllOwned(c.place, r, c.tabs[r].pt, 0, k)
    ensures Scarce(Have(a, r), a.free, Paths(0, n), n)
  {
    hide World;
    hide Took;
    hide Scarce;
    CopiedTook(a, b, c, q, r, qs, k, 0, 0);
    GrowStop(a, b, c, r, Paths(0, k), qs, 0, k, n);
  }

  lemma GrowthUndone(a: Snap, b: Snap, c: Snap, r: nat, ps: set<Pos>, lo: nat, k: nat)
    requires Sound(a) && Took(a, b, r, ps, lo, k) && Fresh(a.tabs[r].pt, b.tabs[r].pt, lo, k)
    requires if k == 0 then c == b else Cut(b, c, r, lo, k, Free)
    ensures Took(a, c, r, ps, 0, 0) && c.tabs[r].pt == a.tabs[r].pt
  {
    FreshUndo(a.tabs[r].pt, b.tabs[r].pt, lo, k);
    if k > 0 {
      TookUndo(a, b, c, r, ps, lo, k);
    }
  }
}
