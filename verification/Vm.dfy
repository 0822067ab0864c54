/** kernel/vm.c over one physical memory and one set of free lists, with any number of user page
    tables in it: the loops over levels and pages, reading and writing the 64-bit words of page
    table pages.  The specification of a table is its map from page numbers to entries, and
    every physical page has one place. */
module Vm {
  import opened Options
  import opened Sv39
  import opened Kalloc
  import opened Spaces
  import opened Ranges
  import opened Mmu

  // ---------------------------------------------------------------- words and entries

  /** A page holds the words of the entries, or the bytes. */
  ghost predicate Shows(f: Frame, pg: Page) {
    match pg
    case Bytes(data) => f == Octets(data)
    case Table(ptes) => f.Words? && |f.ws| == |ptes| && forall i :: 0 <= i < |ptes| ==> f.ws[i] == Encode(ptes[i])
  }

  ghost predicate Agree(ram: Ram, mem: Memory) {
    forall p :: (p in mem <==> p in ram) && (p in mem ==> Shows(ram[p], mem[p]))
  }

  /** memset(p, 0, PGSIZE) of a page that is going to be a page table page. */
  function ClearWords(): Frame { Words(seq(ENTRIES, i => 0)) }

  lemma ClearShows()
    ensures Shows(ClearWords(), Table(seq(ENTRIES, j => ZERO)))
  {
  }

  lemma FrameStored(ram: Ram, mem: Memory, p: nat, f: Frame, pg: Page)
    requires Agree(ram, mem) && Shows(f, pg)
    ensures Agree(ram[p := f], mem[p := pg])
  {
  }

  lemma EntryStored(ram: Ram, mem: Memory, n: nat, i: nat, pte: Pte)
    requires Agree(ram, mem) && IsTable(mem, n) && i < ENTRIES
    ensures n in ram && ram[n].Words? && |ram[n].ws| == ENTRIES
    ensures Agree(ram[n := Words(ram[n].ws[i := Encode(pte)])], SetEntry(mem, n, i, pte))
  {
    assert Shows(ram[n], mem[n]);
    hide Encode;
    assert Shows(Words(ram[n].ws[i := Encode(pte)]), Table(mem[n].ptes[i := pte]));
  }

  lemma EntryLoaded(ram: Ram, mem: Memory, n: nat, i: nat)
    requires Agree(ram, mem) && IsTable(mem, n) && i < ENTRIES
    ensures n in ram && ram[n].Words? && i < |ram[n].ws| && Decode(ram[n].ws[i]) == mem[n].ptes[i]
  {
    assert Shows(ram[n], mem[n]);
    EntryRoundTrip(mem[n].ptes[i]);
  }

  // ---------------------------------------------------------------- what the hardware sees

  /** The hardware reads the word of the entry that walk() looks at. */
  lemma WordAt(ram: Ram, mem: Memory, n: nat, va: nat, level: nat)
    requires Agree(ram, mem) && IsTable(mem, n) && level <= 2
    ensures Px(level, va / PGSIZE) < ENTRIES && n in ram && ram[n].Words?
    ensures var i := va / (if level == 2 then 0x4000_0000 else if level == 1 then 0x20_0000 else 0x1000) % 512;
            i < |ram[n].ws| && Spells(ram[n].ws[i], mem[n].ptes[Px(level, va / PGSIZE)])
  {
    hide Spells;
    hide Encode;
    hide Px;
    IndexOf(va, level);
    assert Shows(ram[n], mem[n]);
    EncodeSpells(mem[n].ptes[Px(level, va / PGSIZE)]);
  }

  /** One level of the translation: an upper entry leads on, or there is no translation. */
  lemma TranslateUpper(ram: Ram, mem: Memory, r: nat, ns: Nodes, n: nat, va: nat, level: nat)
    requires Agree(ram, mem) && Tree(mem, r, ns) && n in ns && ns[n].level == level && 0 < level <= 2
    ensures Translate(ram, n, va, level) ==
            match Follow(mem, n, Px(level, va / PGSIZE))
            case None => None
            case Some(m) => Translate(ram, m, va, level - 1)
  {
    hide Agree;
    hide Px;
    assert NodeOk(mem, r, ns, n);
    hide Tree;
    WordAt(ram, mem, n, va, level);
    var i := Px(level, va / PGSIZE);
    if IsValid(mem[n].ptes[i]) {
      assert ChildOk(mem, ns, n, i);
    }
  }

  lemma TranslateLeaf(ram: Ram, mem: Memory, n: nat, va: nat)
    requires Agree(ram, mem) && IsTable(mem, n)
    ensures Px(0, va / PGSIZE) < ENTRIES
    ensures var e := mem[n].ptes[Px(0, va / PGSIZE)];
            match Translate(ram, n, va, 0)
            case None => !Proper(e)
            case Some(w) => Proper(e) && Spells(w, e)
  {
    hide Agree;
    hide Px;
    WordAt(ram, mem, n, va, 0);
  }

  /** The whole translation ends at the entry that walk() finds. */
  lemma TranslateEntry(ram: Ram, mem: Memory, r: nat, ns: Nodes, va: nat)
    requires Agree(ram, mem) && Tree(mem, r, ns) && va / PGSIZE < MAXVPN
    ensures var e := Entry(mem, r, va / PGSIZE);
            match Translate(ram, r, va, 2)
            case None => !Proper(e)
            case Some(w) => Proper(e) && Spells(w, e)
  {
    hide Agree;
    hide Tree;
    hide Px;
    hide Translate;
    hide Follow;
    hide Spells;
    hide IsTable;
    var v := va / PGSIZE;
    DescendPos(mem, r, ns, v, 2);
    TranslateUpper(ram, mem, r, ns, r, va, 2);
    var d := Descend(mem, r, v, 1);
    if d.Some? {
      DescendPos(mem, r, ns, v, 1);
      TranslateUpper(ram, mem, r, ns, d.value, va, 1);
      var m := Descend(mem, r, v, 0);
      if m.Some? {
        DescendPos(mem, r, ns, v, 0);
        TreeNode(mem, r, ns, m.value);
        TranslateLeaf(ram, mem, m.value, va);
      }
    }
  }

  lemma LowEntry(mem: Memory, r: nat, ns: Nodes, i: nat)
    requires Tree(mem, r, ns) && i < ENTRIES
    ensures IsTable(mem, r) && (IsValid(mem[r].ptes[i]) ==> i < 256)
  {
    assert NodeOk(mem, r, ns, r);
    if IsValid(mem[r].ptes[i]) {
      assert ChildOk(mem, ns, r, i);
      assert NodeOk(mem, r, ns, mem[r].ptes[i].ppn);
    }
  }

  /** Beyond MAXVA the root table has no entry. */
  lemma TranslateBeyond(ram: Ram, mem: Memory, r: nat, ns: Nodes, va: nat)
    requires Agree(ram, mem) && Tree(mem, r, ns) && MAXVPN <= va / PGSIZE < 2 * MAXVPN
    ensures Translate(ram, r, va, 2) == None
  {
    hide Agree;
    hide Translate;
    hide Px;
    HighIndex(va);
    var i := Px(2, va / PGSIZE);
    LowEntry(mem, r, ns, i);
    RootPlace(mem, r, ns);
    TranslateUpper(ram, mem, r, ns, r, va, 2);
  }

  lemma HighIndex(va: nat)
    requires MAXVPN <= va / PGSIZE < 2 * MAXVPN
    ensures 256 <= Px(2, va / PGSIZE) < ENTRIES
  {
  }

  lemma RootPlace(mem: Memory, r: nat, ns: Nodes)
    requires Tree(mem, r, ns)
    ensures r in ns && ns[r].level == 2
  {
  }

  /** Read by the hardware, the words in memory map what the table maps, and nothing else. */
  lemma HardwareReads(ram: Ram, mem: Memory, r: nat, ns: Nodes, pt: map<nat, Pte>, vpn: nat)
    requires Agree(ram, mem) && Tree(mem, r, ns) && Reads(mem, r, pt) && vpn < 2 * MAXVPN
    ensures if vpn in pt then Maps(ram, r, vpn, pt[vpn]) else Faults(ram, r, vpn)
  {
    hide Agree;
    hide Tree;
    hide Translate;
    hide Entry;
    hide Spells;
    if vpn < MAXVPN {
      assert ReadsAt(mem, r, pt, vpn);
    }
    forall va: nat | va / PGSIZE == vpn
      ensures match Translate(ram, r, va, 2)
              case None => vpn in pt ==> !Proper(pt[vpn])
              case Some(w) => vpn in pt && Proper(pt[vpn]) && Spells(w, pt[vpn])
    {
      if vpn < MAXVPN {
        TranslateEntry(ram, mem, r, ns, va);
      } else {
        TranslateBeyond(ram, mem, r, ns, va);
      }
    }
  }

  // ---------------------------------------------------------------- freeing the tree

  ghost predicate Clear(mem: Memory, m: nat) {
    IsTable(mem, m) && forall j :: 0 <= j < ENTRIES ==> !IsValid(mem[m].ptes[j])
  }

  /** All leaf mappings have been removed. */
  ghost predicate NoLeaves(mem: Memory, ns: Nodes) {
    forall m :: m in ns && ns[m].level == 0 ==> Clear(mem, m)
  }

  lemma UnmappedNoLeaves(mem: Memory, root: nat, ns: Nodes, m: nat)
    requires Tree(mem, root, ns) && Reads(mem, root, map[]) && m in ns && ns[m].level == 0
    ensures Clear(mem, m)
  {
    TreeNode(mem, root, ns, m);
    forall j | 0 <= j < ENTRIES
      ensures !IsValid(mem[m].ptes[j])
    {
      var v := ns[m].prefix * ENTRIES + j;
      assert v < MAXVPN && PosOf(v, 0) == ns[m] && Px(0, v) == j;
      DescendReaches(mem, root, ns, m, v);
      assert ReadsAt(mem, root, map[], v);
    }
  }

  /** freewalk() on page n after i entries: the pages below them are free, the rest is a tree. */
  ghost predicate Freeing(mem0: Memory, ns: Nodes, root: nat, n: nat, i: nat, mem: Memory, live: Nodes,
                          freed: set<nat>) {
    && Tree(mem, root, live) && NoLeaves(mem, live) && n in ns && n in live && IsTable(mem, n)
    && (forall m :: m in live ==> m in ns && live[m] == ns[m])
    && (forall m :: m in ns ==> m in live || m in freed)
    && freed !! live.Keys && freed <= Under(ns, ns[n])
    && (forall j :: 0 <= j < i && j < ENTRIES ==> !IsValid(mem[n].ptes[j]))
    && Kept(mem0, mem, Under(ns, ns[n]))
  }

  lemma FreeingStart(mem: Memory, ns: Nodes, root: nat, n: nat)
    requires Tree(mem, root, ns) && NoLeaves(mem, ns) && n in ns
    ensures Freeing(mem, ns, root, n, 0, mem, ns, {})
  {
    TreeNode(mem, root, ns, n);
  }

  lemma FreeingSkip(mem0: Memory, ns: Nodes, root: nat, n: nat, i: nat, mem: Memory, live: Nodes, freed: set<nat>)
    requires Freeing(mem0, ns, root, n, i, mem, live, freed) && i < ENTRIES && !IsValid(mem[n].ptes[i])
    ensures Freeing(mem0, ns, root, n, i + 1, mem, live, freed)
  {
  }

  /** The valid entries of an upper page point to pages below it. */
  lemma FreeingChild(mem0: Memory, ns: Nodes, root: nat, n: nat, i: nat, mem: Memory, live: Nodes, freed: set<nat>)
    requires Freeing(mem0, ns, root, n, i, mem, live, freed) && i < ENTRIES && IsValid(mem[n].ptes[i])
    ensures ns[n].level > 0 && ChildOk(mem, live, n, i) && live[n] == ns[n]
    ensures Under(live, Child(live[n], i)) <= Under(ns, ns[n]) && n !in Under(live, Child(live[n], i))
  {
    assert NodeOk(mem, root, live, n);
    assert ns[n].level == 0 ==> Clear(mem, n);
    forall m | m in Under(live, Child(live[n], i))
      ensures m in Under(ns, ns[n])
    {
      BelowTrans(live[m], live[n], i);
    }
  }

  /** Clearing entry i after the pages below it are gone leaves a tree without leaves. */
  lemma FreeingPrune(mem: Memory, mem1: Memory, root: nat, live: Nodes, n: nat, i: nat)
    requires Tree(mem, root, live) && NoLeaves(mem, live) && n in live && live[n].level > 0 && i < ENTRIES
    requires IsTable(mem, n) && IsValid(mem[n].ptes[i]) && ChildOk(mem, live, n, i)
    requires n !in Under(live, Child(live[n], i)) && Kept(mem, mem1, Under(live, Child(live[n], i)))
    ensures IsTable(mem1, n)
    ensures var u := Under(live, Child(live[n], i));
            Tree(SetEntry(mem1, n, i, ZERO), root, live - u) && NoLeaves(SetEntry(mem1, n, i, ZERO), live - u)
  {
    hide Tree;
    hide ChildOk;
    var u := Under(live, Child(live[n], i));
    hide Under;
    var mem2 := SetEntry(mem1, n, i, ZERO);
    PruneTree(mem, mem2, root, live, n, i);
    forall m | m in live - u && live[m].level == 0
      ensures Clear(mem2, m)
    {
      assert Clear(mem, m);
    }
  }

  lemma FreeingNext(mem0: Memory, ns: Nodes, root: nat, n: nat, i: nat, mem: Memory, live: Nodes, freed: set<nat>,
                    mem1: Memory)
    requires Freeing(mem0, ns, root, n, i, mem, live, freed) && i < ENTRIES && IsValid(mem[n].ptes[i])
    requires ns[n].level > 0 && live[n] == ns[n] && Kept(mem, mem1, Under(live, Child(live[n], i)))
    ensures IsTable(mem1, n)
    ensures var u := Under(live, Child(live[n], i));
            Freeing(mem0, ns, root, n, i + 1, SetEntry(mem1, n, i, ZERO), live - u, freed + u)
  {
    hide Tree;
    hide NoLeaves;
    hide Under;
    hide ChildOk;
    FreeingChild(mem0, ns, root, n, i, mem, live, freed);
    FreeingPrune(mem, mem1, root, live, n, i);
    BelowSelf(ns, n, mem, root, live);
  }

  lemma BelowSelf(ns: Nodes, n: nat, mem: Memory, root: nat, live: Nodes)
    requires n in ns && n in live && live[n] == ns[n] && Tree(mem, root, live)
    ensures n in Under(ns, ns[n])
  {
    TreeNode(mem, root, live, n);
  }

  /** When every entry is clear, only the page itself is left to free. */
  lemma FreeingDone(mem0: Memory, ns: Nodes, root: nat, n: nat, mem: Memory, live: Nodes, freed: set<nat>)
    requires Freeing(mem0, ns, root, n, ENTRIES, mem, live, freed)
    ensures Under(ns, ns[n]) == freed + {n} && n !in freed
  {
    forall m | m in Under(ns, ns[n]) && m !in freed
      ensures m == n
    {
      if m != n {
        var j := HasChild(mem, root, live, n, m);
        assert false;
      }
    }
    BelowSelf(ns, n, mem, root, live);
  }

  lemma KeptBut(mem0: Memory, mem: Memory, mem': Memory, mine: set<nat>, n: nat)
    requires Kept(mem0, mem, mine) && n in mine && forall p :: p in mem && p != n ==> p in mem' && mem'[p] == mem[p]
    ensures Kept(mem0, mem', mine)
  {
  }

  lemma UnderRoot(mem: Memory, root: nat, ns: Nodes)
    requires Tree(mem, root, ns)
    ensures root in ns && Under(ns, ns[root]) == ns.Keys
  {
    forall m | m in ns
      ensures Below(ns[m], ns[root])
    {
      TreeNode(mem, root, ns, m);
    }
  }

  lemma WalkStart(mem: Memory, r: nat, vpn: nat)
    ensures Descend(mem, r, vpn, 2) == Some(r) && PathTo(vpn, 2) == {}
  {
  }

  lemma PathWhole(vpn: nat)
    ensures PathTo(vpn, 0) == Path(vpn)
  {
  }

  /** walk() finds the next page table page in place. */
  lemma DescentThere(b: Snap, r: nat, vpn: nat, level: nat)
    requires Sound(b) && r in b.tabs && vpn < MAXVPN && 0 < level <= 2 && Descend(b.mem, r, vpn, level - 1).Some?
    ensures Took(b, b, r, {PosOf(vpn, level - 1)}, 0, 0)
  {
    hide World;
    hide Took;
    hide Tree;
    hide PosOf;
    hide Descend;
    TabOf(b.mem, b.free, b.tabs, b.place, r);
    DescendPos(b.mem, r, b.tabs[r].nodes, vpn, level - 1);
    TookNone(b, r, 0);
    assert PosOf(vpn, level - 1) in Have(b, r);
    TookAgain(b, b, r, {}, PosOf(vpn, level - 1));
    assert {} + {PosOf(vpn, level - 1)} == {PosOf(vpn, level - 1)};
  }

  /** An invalid entry leads to a position that the table lacks. */
  lemma NoTable(b: Snap, r: nat, p: Pos, n: nat, i: nat)
    requires Sound(b) && r in b.tabs && n in b.tabs[r].nodes && b.tabs[r].nodes[n].level > 0 && i < ENTRIES
    requires IsTable(b.mem, n) && !IsValid(b.mem[n].ptes[i]) && Child(b.tabs[r].nodes[n], i) == p
    ensures Scarce(Have(b, r), {}, {p}, 0)
  {
    hide Child;
    hide Scarce;
    TabOf(b.mem, b.free, b.tabs, b.place, r);
    forall q | q in Have(b, r)
      ensures q != p
    {
      var m :| m in b.tabs[r].nodes && b.tabs[r].nodes[m] == q;
      PosIsNew(b.mem, r, b.tabs[r].nodes, n, i, m);
    }
    ScarceOne(Have(b, r), p);
  }

  /** The entry that uvmclear() changes: without PTE_U it is a leaf of the same page. */
  lemma ClearableEntry(a: Snap, r: nat, vpn: nat)
    requires Sound(a) && r in a.tabs && vpn < MAXVPN && Descend(a.mem, r, vpn, 0).Some?
    ensures Px(0, vpn) < ENTRIES && IsTable(a.mem, Descend(a.mem, r, vpn, 0).value)
    ensures var pte := a.mem[Descend(a.mem, r, vpn, 0).value].ptes[Px(0, vpn)];
            && (vpn in a.tabs[r].pt <==> IsValid(pte))
            && (vpn in a.tabs[r].pt ==> pte == a.tabs[r].pt[vpn] && IsLeaf(pte) && Mappable(a.place, r, vpn, pte.ppn))
  {
    TabOf(a.mem, a.free, a.tabs, a.place, r);
    DescendPos(a.mem, r, a.tabs[r].nodes, vpn, 0);
    TreeNode(a.mem, r, a.tabs[r].nodes, Descend(a.mem, r, vpn, 0).value);
    PxBound(0, vpn);
    assert ReadsAt(a.mem, r, a.tabs[r].pt, vpn);
    if vpn in a.tabs[r].pt {
      assert LeafAt(a.place, r, vpn, a.tabs[r].pt[vpn]);
    }
  }

  lemma Cleared(tabs: Tabs, place: Places, r: nat, vpn: nat, pte: Pte)
    requires r in tabs && (vpn in tabs[r].pt <==> IsValid(pte)) && (vpn in tabs[r].pt ==> pte == tabs[r].pt[vpn])
    ensures var pte' := pte.(flags := pte.flags.(u := false));
            && Left(place, r, tabs[r].pt, vpn, pte') == place
            && tabs[r := Tab(tabs[r].nodes, PutPte(tabs[r].pt, vpn, pte'))] ==
               if vpn in tabs[r].pt then tabs[r := Tab(tabs[r].nodes, tabs[r].pt[vpn := pte'])] else tabs
  {
    if vpn !in tabs[r].pt {
      assert tabs[r].pt - {vpn} == tabs[r].pt;
      assert tabs[r := Tab(tabs[r].nodes, tabs[r].pt)] == tabs;
    }
  }

  /** The places after held pages have been freed. */
  ghost function Freed(place: Places, ps: set<nat>): Places {
    map p | p in place :: if p in ps then Free else place[p]
  }

  lemma FreedMore(place: Places, ps: set<nat>, qs: set<nat>)
    ensures Freed(Freed(place, ps), qs) == Freed(place, ps + qs)
    ensures Freed(place, {}) == place
  {
  }

  lemma FreedOne(place: Places, ps: set<nat>, p: nat)
    requires p in place
    ensures Freed(place, ps)[p := Free] == Freed(place, ps + {p})
  {
  }

  /** The page table pages that are left are still in the caller's hands. */
  ghost predicate AllLoose(tabs: Tabs, place: Places, ps: set<nat>) {
    forall m :: m in ps ==> Loose(tabs, place, m)
  }

  lemma LooseLeft(tabs: Tabs, place: Places, ns: set<nat>, live: set<nat>, freed: set<nat>)
    requires AllLoose(tabs, place, ns) && live <= ns && freed !! live
    ensures AllLoose(tabs, Freed(place, freed), live)
  {
    forall m | m in live
      ensures Loose(tabs, Freed(place, freed), m)
    {
      assert Loose(tabs, place, m);
    }
  }

  /** The places after the address space at r has been freed. */
  ghost function Reclaimed(place: Places, r: nat): Places {
    map p | p in place :: if place[p] == Node(r) || (place[p].Leaf? && place[p].r == r) then Free else place[p]
  }

  lemma PlaceOfTab(a: Snap, r: nat, n: nat, p: nat)
    requires Sound(a) && r in a.tabs && p in a.place && forall v :: v in a.tabs[r].pt ==> v < n
    ensures p in a.tabs[r].nodes <==> a.place[p] == Node(r)
    ensures a.place[p].Leaf? && a.place[p].r == r ==> LeafIn(a.place[p], r, 0, n)
  {
    TabOf(a.mem, a.free, a.tabs, a.place, r);
    assert PlaceOk(a.tabs, a.place, p);
    hide World;
    hide Tree;
    hide Reads;
  }

  lemma ReclaimedAll(a: Snap, r: nat, n: nat)
    requires Sound(a) && r in a.tabs && forall v :: v in a.tabs[r].pt ==> v < n
    ensures Freed(Dropped(Vacate(a.place, r, 0, n, Free), r), a.tabs[r].nodes.Keys) == Reclaimed(a.place, r)
  {
    hide Sound;
    forall p | p in a.place
      ensures p in a.tabs[r].nodes <==> a.place[p] == Node(r)
      ensures a.place[p].Leaf? && a.place[p].r == r ==> LeafIn(a.place[p], r, 0, n)
    {
      PlaceOfTab(a, r, n, p);
    }
  }

  lemma LooseOutside(tabs: Tabs, place: Places, ns: set<nat>, freed: set<nat>, n: nat)
    requires AllLoose(tabs, place, ns) && n in ns && n !in freed
    ensures n in place && Loose(tabs, Freed(place, freed), n)
  {
    assert Loose(tabs, place, n);
  }

  lemma AllUnmapped(b: Snap, r: nat)
    requires Sound(b) && r in b.tabs && b.tabs[r].pt == map[]
    ensures NoLeaves(b.mem, b.tabs[r].nodes)
  {
    TabOf(b.mem, b.free, b.tabs, b.place, r);
    hide World;
    forall m | m in b.tabs[r].nodes && b.tabs[r].nodes[m].level == 0
      ensures Clear(b.mem, m)
    {
      UnmappedNoLeaves(b.mem, r, b.tabs[r].nodes, m);
    }
  }

  lemma NodesHit(a: Snap, r: nat, n: nat)
    requires Sound(a) && r in a.tabs
    ensures a.tabs[r].nodes.Keys <= Hit(a.place, r, 0, n)
  {
    TabOf(a.mem, a.free, a.tabs, a.place, r);
    hide World;
    hide Tree;
    hide Reads;
  }

  lemma FreeingOf(mem0: Memory, ns: Nodes, root: nat, n: nat, i: nat, mem: Memory, live: Nodes, freed: set<nat>)
    requires Freeing(mem0, ns, root, n, i, mem, live, freed)
    ensures Tree(mem, root, live) && NoLeaves(mem, live) && n in ns && n in live && IsTable(mem, n) && live[n] == ns[n]
    ensures live.Keys <= ns.Keys && freed !! live.Keys && Kept(mem0, mem, Under(ns, ns[n]))
  {
  }

  // ---------------------------------------------------------------- the code

  class Machine {
    const kmem: Kmem
    ghost var mem: Memory      // what the pages of kmem.ram hold
    ghost var tabs: Tabs
    ghost var place: Places

    ghost predicate Valid()
      reads this, kmem
    {
      && kmem.Valid() && |kmem.head| > 0 && Agree(kmem.ram, mem)
      && World(mem, FreePages(kmem.lists), tabs, place)
    }

    ghost function F(): set<nat>
      reads kmem
    {
      FreePages(kmem.lists)
    }

    /** Before the first page table there are only the free lists, and pages in use elsewhere. */
    constructor (kmem: Kmem, ghost mem: Memory, ghost held: set<nat>)
      requires kmem.Valid() && |kmem.head| > 0 && Agree(kmem.ram, mem) && held !! FreePages(kmem.lists) && 0 !in held
      ensures this.kmem == kmem && this.mem == mem && Valid() && tabs == map[]
      ensures place == map p | p in FreePages(kmem.lists) + held :: if p in held then Held else Free
    {
      this.kmem := kmem;
      this.mem := mem;
      tabs := map[];
      place := map p | p in FreePages(kmem.lists) + held :: if p in held then Held else Free;
    }

    ghost function Now(): Snap
      reads this, kmem
    {
      Snap(mem, tabs, place, F())
    }

    lemma SoundOf()
      requires Valid()
      ensures Sound(Now()) && Agree(kmem.ram, mem)
    {
    }

    lemma TreeOf(r: nat)
      requires Valid() && r in tabs
      ensures Tree(mem, r, tabs[r].nodes) && Reads(mem, r, tabs[r].pt)
    {
      TabOf(mem, F(), tabs, place, r);
    }

    /** Every table, as the hardware reads its words, is the map that the operations speak about. */
    lemma Translates(r: nat, vpn: nat)
      requires Valid() && r in tabs && vpn < 2 * MAXVPN
      ensures if vpn in tabs[r].pt then Maps(kmem.ram, r, vpn, tabs[r].pt[vpn]) else Faults(kmem.ram, r, vpn)
    {
      TreeOf(r);
      HardwareReads(kmem.ram, mem, r, tabs[r].nodes, tabs[r].pt, vpn);
    }

    lemma MappedRange(r: nat, pt: map<nat, Pte>, vpn: nat, k: nat, ppn: nat, perm: Flags)
      requires Valid() && r in tabs && vpn + k <= MAXVPN && tabs[r].pt == MapRange(pt, vpn, k, ppn, perm)
      ensures MapsRange(kmem.ram, r, vpn, k, ppn, perm)
    {
      hide Valid;
      hide MapRange;
      hide Maps;
      hide Faults;
      forall j | 0 <= j < k
        ensures MapsNth(kmem.ram, r, vpn, j, ppn, perm)
      {
        MapRangeAt(pt, vpn, k, ppn, perm, vpn + j);
        Translates(r, vpn + j);
      }
    }

    lemma UnmappedRange(r: nat, pt: map<nat, Pte>, vpn: nat, n: nat)
      requires Valid() && r in tabs && (n > 0 ==> vpn + n <= MAXVPN) && tabs[r].pt == UnmapRange(pt, vpn, n)
      ensures FaultsRange(kmem.ram, r, vpn, n)
    {
      hide Valid;
      hide UnmapRange;
      hide Maps;
      hide Faults;
      forall v | vpn <= v < vpn + n
        ensures Faults(kmem.ram, r, v)
      {
        UnmapRangeAt(pt, vpn, n, v);
        Translates(r, v);
      }
    }

    /** *pte. */
    method LoadPte(node: nat, i: nat) returns (pte: Pte)
      requires Valid() && IsTable(mem, node) && i < ENTRIES
      ensures pte == mem[node].ptes[i]
    {
      EntryLoaded(kmem.ram, mem, node, i);
      pte := Decode(kmem.ram[node].ws[i]);
    }

    /** walk() without alloc: the leaf table page for vpn, if there is one. */
    method Find(r: nat, vpn: nat) returns (res: Option<nat>)
      requires Valid() && r in tabs && vpn < MAXVPN
      ensures res == Descend(mem, r, vpn, 0)
    {
      TreeOf(r);
      hide Valid;
      var node, level := r, 2;
      while level > 0
        invariant 0 <= level <= 2 && Descend(mem, r, vpn, level) == Some(node)
        decreases level
      {
        DescendPos(mem, r, tabs[r].nodes, vpn, level);
        TreeNode(mem, r, tabs[r].nodes, node);
        PxBound(level, vpn);
        DescendNext(mem, r, vpn, level, node);
        var pte := LoadPte(node, Px(level, vpn));
        if !IsValid(pte) {
          DescendStops(mem, r, vpn, level - 1);
          return None;
        }
        node, level := pte.ppn, level - 1;
      }
      res := Some(node);
    }

    /** kalloc() and the filling of the page; page 0 for failure. */
    method NewPage(frame: Frame, ghost pg: Page, cid: nat) returns (p: nat)
      requires Valid() && cid < |kmem.head| && Shows(frame, pg)
      modifies this, kmem
      ensures Valid() && |kmem.head| == |old(kmem.head)| && tabs == old(tabs)
      ensures p == 0 <==> old(F()) == {}
      ensures p == 0 ==> F() == {} && mem == old(mem) && place == old(place)
      ensures p != 0 ==> p in old(F()) && F() == old(F()) - {p} && mem == old(mem)[p := pg] && Loose(tabs, place, p)
      ensures p != 0 ==> p in old(place) && old(place)[p] == Free && place == old(place)[p := Held]
    {
      hide World;
      hide Agree;
      hide Unused;
      hide NoDup;
      hide Source;
      hide FreePages;
      p := kmem.Kalloc(cid);
      if p != 0 {
        FreeUnused(mem, old(F()), tabs, place, p);
        LooseStep(mem, old(F()), tabs, place, p, pg, Held);
        FrameStored(old(kmem.ram), mem, p, frame, pg);
        kmem.ram := kmem.ram[p := frame];
        mem := mem[p := pg];
        place := place[p := Held];
        assert kmem.ram == old(kmem.ram)[p := frame];
      }
    }

    /** kfree() of a page that no table has. */
    method GivePage(p: nat, cid: nat)
      requires Valid() && cid < |kmem.head| && Loose(tabs, place, p)
      modifies this, kmem
      ensures Valid() && |kmem.head| == |old(kmem.head)| && tabs == old(tabs)
      ensures F() == old(F()) + {p} && p !in old(F()) && place == old(place)[p := Free]
      ensures mem == old(mem)[p := Bytes(seq(PGSIZE, i => 1))]
    {
      hide NoDup;
      hide Agree;
      hide FreePages;
      ghost var junk := Bytes(seq(PGSIZE, i => 1));
      assert p != 0 && p !in F();
      LooseStep(mem, F(), tabs, place, p, junk, Free);
      FrameStored(kmem.ram, mem, p, FilledWith(1), junk);
      hide World;
      kmem.Kfree(p, cid);
      mem := mem[p := junk];
      place := place[p := Free];
    }

    /** *pte = pte, in the word of the entry. */
    method StoreWord(node: nat, i: nat, pte: Pte)
      requires Agree(kmem.ram, mem) && IsTable(mem, node) && i < ENTRIES
      modifies this`mem, kmem`ram
      ensures Agree(kmem.ram, mem) && mem == SetEntry(old(mem), node, i, pte)
    {
      EntryStored(kmem.ram, mem, node, i, pte);
      kmem.ram := kmem.ram[node := Words(kmem.ram[node].ws[i := Encode(pte)])];
      mem := SetEntry(mem, node, i, pte);
    }

    /** The allocating branch of walk(): a cleared page linked in at entry i of node. */
    method AddTable(r: nat, node: nat, i: nat, cid: nat) returns (c: nat)
      requires Valid() && cid < |kmem.head| && r in tabs && node in tabs[r].nodes && tabs[r].nodes[node].level > 0
      requires i < ENTRIES && IsTable(mem, node) && !IsValid(mem[node].ptes[i])
               && InBounds(Child(tabs[r].nodes[node], i))
      modifies this, kmem
      ensures Valid() && |kmem.head| == |old(kmem.head)|
      ensures c == 0 ==> old(F()) == {} && F() == {} && mem == old(mem) && tabs == old(tabs) && place == old(place)
      ensures c != 0 ==> c !in old(tabs)[r].nodes && c != node && mem == LinkNode(old(mem), node, i, c)
      ensures c != 0 ==> tabs == old(tabs)[r := Tab(AddPos(old(tabs)[r].nodes, node, i, c), old(tabs)[r].pt)]
      ensures c != 0 ==> c in old(F()) && F() == old(F()) - {c}
      ensures c != 0 ==> c in old(place) && old(place)[c] == Free && place == old(place)[c := Node(r)]
    {
      hide World;
      hide NoDup;
      hide FreePages;
      hide Agree;
      hide InBounds;
      hide Child;
      ghost var pg := Table(seq(ENTRIES, j => ZERO));
      ClearShows();
      c := NewPage(ClearWords(), pg, cid);
      if c != 0 {
        assert NotOf(tabs[r], c);
        LinkStep(mem, F(), tabs, place, r, node, i, c);
        assert LinkNode(mem, node, i, c) == SetEntry(mem, node, i, Pointer(c)) == LinkNode(old(mem), node, i, c);
        StoreWord(node, i, Pointer(c));
        tabs := tabs[r := Tab(AddPos(tabs[r].nodes, node, i, c), tabs[r].pt)];
        place := place[c := Node(r)];
      }
    }

    /** One level of walk() with alloc: down to the next page table page, added if it is missing. */
    method Descent(r: nat, vpn: nat, level: nat, node: nat, cid: nat) returns (next: nat, ok: bool)
      requires Valid() && r in tabs && vpn < MAXVPN && cid < |kmem.head| && 0 < level <= 2
      requires Descend(mem, r, vpn, level) == Some(node)
      modifies this, kmem
      ensures Valid() && |kmem.head| == |old(kmem.head)| && r in tabs
      ensures ok ==> Took(old(Now()), Now(), r, {PosOf(vpn, level - 1)}, 0, 0) && tabs[r].pt == old(tabs)[r].pt
      ensures ok ==> Descend(mem, r, vpn, level - 1) == Some(next)
      ensures !ok ==> Now() == old(Now()) && F() == {} && Scarce(Have(Now(), r), {}, {PosOf(vpn, level - 1)}, 0)
    {
      hide Valid;
      hide World;
      hide Tree;
      hide Reads;
      hide Took;
      hide Scarce;
      hide Descend;
      hide Px;
      hide PosOf;
      hide InBounds;
      hide LinkNode;
      hide AddPos;
      TreeOf(r);
      SoundOf();
      DescendPos(mem, r, tabs[r].nodes, vpn, level);
      TreeNode(mem, r, tabs[r].nodes, node);
      PxBound(level, vpn);
      ghost var b := Now();
      var i := Px(level, vpn);
      var pte := LoadPte(node, i);
      if IsValid(pte) {
        DescendNext(mem, r, vpn, level, node);
        DescentThere(b, r, vpn, level);
        return pte.ppn, true;
      }
      PosStep(vpn, level);
      PosInBounds(vpn, level - 1);
      SoundOf();
      next := AddTable(r, node, i, cid);
      ok := next != 0;
      if ok {
        TookTable(b, Now(), r, node, i, next);
        LinkDescend(b.mem, r, b.tabs[r].nodes, node, i, next, vpn, level - 1);
      } else {
        NoTable(b, r, PosOf(vpn, level - 1), node, i);
      }
    }

    /** walk() with alloc: the leaf table page for vpn, with missing table pages added.  It fails
        exactly when there are fewer free pages than missing ones, and then none is left. */
    method Walk(r: nat, vpn: nat, cid: nat) returns (node: nat, ok: bool, ghost ps: set<Pos>)
      requires Valid() && r in tabs && vpn < MAXVPN && cid < |kmem.head|
      modifies this, kmem
      ensures Valid() && |kmem.head| == |old(kmem.head)| && r in tabs
      ensures Took(old(Now()), Now(), r, ps, 0, 0) && tabs[r].pt == old(tabs)[r].pt
      ensures ok ==> ps == Path(vpn) && Descend(mem, r, vpn, 0) == Some(node)
      ensures !ok ==> F() == {} && Scarce(Have(old(Now()), r), old(F()), Path(vpn), 0)
    {
      hide Valid;
      hide Took;
      hide Descend;
      hide PathTo;
      hide Path;
      hide Scarce;
      ghost var a := Now();
      TookNone(a, r, 0);
      WalkStart(mem, r, vpn);
      ps := {};
      node := r;
      var level := 2;
      while level > 0
        invariant 0 <= level <= 2 && Valid() && |kmem.head| == |old(kmem.head)| && r in tabs
        invariant Took(a, Now(), r, ps, 0, 0) && tabs[r].pt == old(tabs)[r].pt && ps == PathTo(vpn, level)
        invariant Descend(mem, r, vpn, level) == Some(node)
        decreases level
      {
        ghost var b := Now();
        PathStep(vpn, level);
        node, ok := Descent(r, vpn, level, node, cid);
        if !ok {
          TookScarce(a, b, r, ps, {PosOf(vpn, level - 1)}, Path(vpn), 0, 0, 0, 0);
          return;
        }
        TookTwice(a, b, Now(), r, ps, {PosOf(vpn, level - 1)}, 0, 0, 0);
        level := level - 1;
        ps := PathTo(vpn, level);
      }
      ok := true;
      PathWhole(vpn);
    }

    /** *pte = pte, for the entry that walk() found. */
    method WritePte(r: nat, vpn: nat, node: nat, pte: Pte)
      requires Valid() && r in tabs && vpn < MAXVPN && Descend(mem, r, vpn, 0) == Some(node)
      requires IsValid(pte) ==> IsLeaf(pte) && Mappable(place, r, vpn, pte.ppn)
      modifies this, kmem`ram
      ensures Valid() && F() == old(F())
      ensures tabs == old(tabs)[r := Tab(old(tabs)[r].nodes, PutPte(old(tabs)[r].pt, vpn, pte))]
      ensures place == Left(old(place), r, old(tabs)[r].pt, vpn, pte) && Kept(old(mem), mem, tabs[r].nodes.Keys)
    {
      hide World;
      hide Agree;
      hide NoDup;
      hide FreePages;
      hide Descend;
      hide Px;
      WriteStep(mem, F(), tabs, place, r, vpn, pte);
      ghost var tabs' := tabs[r := Tab(tabs[r].nodes, PutPte(tabs[r].pt, vpn, pte))];
      ghost var place' := Left(place, r, tabs[r].pt, vpn, pte);
      StoreWord(node, Px(0, vpn), pte);
      tabs, place := tabs', place';
    }

    /** One turn of mappages()'s loop, for a page that the caller holds. */
    method MapOne(r: nat, vpn: nat, ppn: nat, perm: Flags, cid: nat) returns (ok: bool, ghost ps: set<Pos>)
      requires Valid() && cid < |kmem.head| && r in tabs && vpn < MAXVPN && vpn !in tabs[r].pt && LeafPerm(perm)
      requires ppn in place ==> place[ppn] == Held
      modifies this, kmem
      ensures Valid() && |kmem.head| == |old(kmem.head)| && r in tabs && Took(old(Now()), Now(), r, ps, 0, 0)
      ensures ok ==> ps == Path(vpn) && tabs[r].pt == old(tabs)[r].pt[vpn := MkPte(ppn, perm)]
      ensures !ok ==> tabs[r].pt == old(tabs)[r].pt && F() == {}
      ensures !ok ==> Scarce(Have(old(Now()), r), old(F()), Path(vpn), 0)
    {
      hide Valid;
      hide Took;
      hide Kept;
      var node;
      node, ok, ps := Walk(r, vpn, cid);
      if ok {
        ghost var b := Now();
        SoundOf();
        TookHeld(old(Now()), b, r, ps, ppn);
        WritePte(r, vpn, node, MkPte(ppn, perm));
        TookEntry(old(Now()), b, Now(), r, ps);
      }
    }

    /** The loop of mappages(): maps n pages, or as many as there are page table pages for. */
    method MapPages(r: nat, vpn: nat, n: nat, ppn: nat, perm: Flags, cid: nat)
      returns (ok: bool, ghost k: nat, ghost ps: set<Pos>)
      requires Valid() && cid < |kmem.head| && r in tabs && n >= 1 && vpn + n <= MAXVPN && LeafPerm(perm)
      requires forall v :: vpn <= v < vpn + n ==> v !in tabs[r].pt
      requires forall p :: ppn <= p < ppn + n && p in place ==> place[p] == Held
      modifies this, kmem
      ensures Valid() && |kmem.head| == |old(kmem.head)| && r in tabs && Took(old(Now()), Now(), r, ps, 0, 0)
      ensures k <= n && (ok <==> k == n) && tabs[r].pt == MapRange(old(tabs)[r].pt, vpn, k, ppn, perm)
      ensures MapsRange(kmem.ram, r, vpn, k, ppn, perm)
      ensures ok <==> !Scarce(Have(old(Now()), r), old(F()), Paths(vpn, n), 0)
      ensures ok ==> ps == Paths(vpn, n)
      ensures !ok ==> F() == {}
    {
      hide Valid;
      hide Took;
      hide Scarce;
      hide Path;
      hide Paths;
      hide Have;
      hide MkPte;
      hide MapRange;
      hide MapsRange;
      ghost var a := Now();
      TookNone(a, r, 0);
      MapRangeNone(a.tabs[r].pt, vpn, ppn, perm);
      var i := 0;
      k, ps := 0, {};
      while i < n
        invariant 0 <= i <= n && k == i && ps == Paths(vpn, i)
        invariant Valid() && |kmem.head| == |old(kmem.head)| && r in tabs && Took(a, Now(), r, ps, 0, 0)
        invariant tabs[r].pt == MapRange(a.tabs[r].pt, vpn, i, ppn, perm)
      {
        MapRangeAt(a.tabs[r].pt, vpn, i, ppn, perm, vpn + i);
        PathsNext(vpn, i);
        ghost var b, pt1 := Now(), tabs[r].pt;
        TookHeld(a, b, r, ps, ppn + i);
        ghost var qs;
        ok, qs := MapOne(r, vpn + i, ppn + i, perm, cid);
        TookTwice(a, b, Now(), r, ps, qs, 0, 0, 0);
        if !ok {
          PathsGrow(vpn, i + 1, n);
          TookScarce(a, b, r, ps, Path(vpn + i), Paths(vpn, n), 0, 0, 0, 0);
          MappedRange(r, a.tabs[r].pt, vpn, k, ppn, perm);
          return false, k, ps + qs;
        }
        MapRangeStep(a.tabs[r].pt, vpn, i, ppn, perm, pt1, tabs[r].pt);
        i := i + 1;
        k, ps := i, ps + qs;
      }
      TookEnough(a, Now(), r, ps, 0, 0);
      MappedRange(r, a.tabs[r].pt, vpn, n, ppn, perm);
      ok := true;
    }

    /** mappages(): every page that the size bytes at va touch, to consecutive pages from pa on.  It
        fails exactly when there are too few free pages for the missing page table pages. */
    method Mappages(r: nat, va: nat, size: nat, pa: nat, perm: Flags, cid: nat)
      returns (ok: bool, ghost k: nat, ghost ps: set<Pos>)
      requires Valid() && cid < |kmem.head| && r in tabs && size > 0 && LastPage(va, size) < MAXVPN && LeafPerm(perm)
      requires forall v :: va / PGSIZE <= v <= LastPage(va, size) ==> v !in tabs[r].pt
      requires forall p :: pa / PGSIZE <= p <= pa / PGSIZE + (LastPage(va, size) - va / PGSIZE) && p in place ==>
                 place[p] == Held
      modifies this, kmem
      ensures Valid() && |kmem.head| == |old(kmem.head)| && r in tabs && Took(old(Now()), Now(), r, ps, 0, 0)
      ensures k <= LastPage(va, size) - va / PGSIZE + 1 && (ok <==> k == LastPage(va, size) - va / PGSIZE + 1)
      ensures tabs[r].pt == MapRange(old(tabs)[r].pt, va / PGSIZE, k, pa / PGSIZE, perm)
      ensures ok <==> !Scarce(Have(old(Now()), r), old(F()),
                              Paths(va / PGSIZE, LastPage(va, size) - va / PGSIZE + 1), 0)
    {
      hide Valid;
      hide Took;
      hide Scarce;
      ok, k, ps := MapPages(r, va / PGSIZE, LastPage(va, size) - va / PGSIZE + 1, pa / PGSIZE, perm, cid);
    }

    /** One turn of uvmunmap()'s loop: clear the entry, and free the page if asked to. */
    method UnmapOne(r: nat, vpn: nat, doFree: bool, cid: nat)
      requires Valid() && cid < |kmem.head| && r in tabs && vpn in tabs[r].pt
      requires doFree ==> Owned(place, r, tabs[r].pt, vpn)
      modifies this, kmem
      ensures Valid() && |kmem.head| == |old(kmem.head)| && r in tabs
      ensures CutOne(old(Now()), Now(), r, vpn, if doFree then Free else Held)
    {
      hide Valid;
      hide World;
      hide Kept;
      hide CutOne;
      hide Tree;
      hide Reads;
      hide Descend;
      hide Px;
      SoundOf();
      TreeOf(r);
      ghost var a := Now();
      MappedEntry(mem, r, tabs[r].nodes, tabs[r].pt, vpn);
      var node := Find(r, vpn);
      var pte := LoadPte(node.value, Px(0, vpn));
      WritePte(r, vpn, node.value, ZERO);
      ghost var b := Now();
      CutEntry(a, b, r, vpn);
      if doFree {
        LeftLoose(a.mem, a.free, a.tabs, a.place, r, vpn);
        GivePage(pte.ppn, cid);
        CutFreed(a, b, Now(), r, vpn);
      }
    }

    /** uvmunmap(): exactly the named pages leave the map, and with doFree exactly their physical
        pages are free again; without, they are in the caller's hands. */
    method Uvmunmap(r: nat, vpn: nat, npages: nat, doFree: bool, cid: nat)
      requires Valid() && cid < |kmem.head| && r in tabs
      requires Unmappable(Now(), r, vpn, npages, doFree)
      modifies this, kmem
      ensures Valid() && |kmem.head| == |old(kmem.head)| && r in tabs
      ensures Cut(old(Now()), Now(), r, vpn, npages, if doFree then Free else Held)
      ensures FaultsRange(kmem.ram, r, vpn, npages)
    {
      hide Valid;
      hide World;
      hide Cut;
      hide CutOne;
      hide Unmappable;
      hide Faults;
      SoundOf();
      ghost var a, to := Now(), if doFree then Free else Held;
      CutNone(a, r, vpn, to);
      var k := 0;
      while k < npages
        invariant 0 <= k <= npages && Valid() && |kmem.head| == |old(kmem.head)| && r in tabs
        invariant Cut(a, Now(), r, vpn, k, to)
      {
        ghost var b := Now();
        UnmapReady(a, b, r, vpn, npages, k, doFree);
        UnmapOne(r, vpn + k, doFree, cid);
        CutStep(a, b, Now(), r, vpn, k, to);
        k := k + 1;
      }
      CutMap(a, Now(), r, vpn, npages, to, doFree);
      UnmappedRange(r, a.tabs[r].pt, vpn, npages);
    }

    /** The table makes a page its own that it has mapped once; nothing happens in memory. */
    ghost method Own(r: nat, v: nat, p: nat)
      requires Valid() && p in place && World(mem, F(), tabs, place[p := Leaf(r, v)])
      modifies this`place
      ensures Valid() && place == old(place)[p := Leaf(r, v)]
    {
      hide World;
      hide Agree;
      hide NoDup;
      hide FreePages;
      place := place[p := Leaf(r, v)];
    }

    /** One turn of the loops of uvmalloc() and uvmcopy(): a new page, filled and mapped.  It fails
        exactly when there are too few pages for it and the page table pages it needs. */
    method GrowOne(r: nat, vpn: nat, frame: Frame, ghost pg: Page, perm: Flags, cid: nat)
      returns (ok: bool, ghost p: nat, ghost ps: set<Pos>)
      requires Valid() && cid < |kmem.head| && r in tabs && vpn < MAXVPN && vpn !in tabs[r].pt && LeafPerm(perm)
      requires Shows(frame, pg)
      modifies this, kmem
      ensures Valid() && |kmem.head| == |old(kmem.head)| && r in tabs
      ensures ok ==> Took(old(Now()), Now(), r, ps, vpn, 1) && ps == Path(vpn)
      ensures ok ==> tabs[r].pt == old(tabs)[r].pt[vpn := MkPte(p, perm)] && Owned(place, r, tabs[r].pt, vpn)
      ensures ok ==> p in mem && mem[p] == pg
      ensures !ok ==> Took(old(Now()), Now(), r, ps, 0, 0) && tabs[r].pt == old(tabs)[r].pt
      ensures !ok ==> Scarce(Have(old(Now()), r), old(F()), Path(vpn), 1)
    {
      hide Valid;
      hide World;
      hide Took;
      hide Scarce;
      hide Path;
      hide MkPte;
      hide Owned;
      hide Unused;
      ghost var a := Now();
      TookNone(a, r, 0);
      var page := NewPage(frame, pg, cid);
      ScarcePage(Have(a, r), a.free, Path(vpn), page);
      if page == 0 {
        return false, 0, {};
      }
      ghost var b := Now();
      ok, ps := MapOne(r, vpn, page, perm, cid);
      p := page;
      ghost var c := Now();
      SoundOf();
      if ok {
        NowOwned(b, c, r, vpn, page, perm, ps);
        TookOwn(a, pg, c, r, vpn, page, ps);
        Own(r, vpn, page);
      } else {
        StillLoose(b, c, r, page, ps);
        TookBack(a, pg, c, r, page, ps, Bytes(seq(PGSIZE, i => 1)));
        GivePage(page, cid);
      }
    }

    /** uvmdealloc(). */
    method Uvmdealloc(r: nat, oldsz: nat, newsz: nat, cid: nat) returns (res: nat)
      requires Valid() && cid < |kmem.head| && r in tabs
      requires newsz < oldsz ==> AllOwned(place, r, tabs[r].pt, PageUp(newsz), Extra(newsz, oldsz))
      modifies this, kmem
      ensures Valid() && |kmem.head| == |old(kmem.head)| && r in tabs
      ensures newsz >= oldsz ==> res == oldsz && Now() == old(Now())
      ensures newsz < oldsz ==> res == newsz && Cut(old(Now()), Now(), r, PageUp(newsz), Extra(newsz, oldsz), Free)
    {
      hide Valid;
      hide Cut;
      if newsz >= oldsz {
        return oldsz;
      }
      CutNone(Now(), r, PageUp(newsz), Free);
      if PageUp(newsz) < PageUp(oldsz) {
        OwnedMapped(place, r, tabs[r].pt, PageUp(newsz), Extra(newsz, oldsz));
        Uvmunmap(r, PageUp(newsz), PageUp(oldsz) - PageUp(newsz), true, cid);
      }
      return newsz;
    }

    /** The loop of uvmalloc(): n zeroed pages from lo on, or as many as there is memory for. */
    method GrowPages(r: nat, lo: nat, n: nat, cid: nat) returns (k: nat, ghost ps: set<Pos>)
      requires Valid() && cid < |kmem.head| && r in tabs && lo + n <= MAXVPN
      requires forall v :: lo <= v < lo + n ==> v !in tabs[r].pt
      modifies this, kmem
      ensures Valid() && |kmem.head| == |old(kmem.head)| && r in tabs && k <= n
      ensures Took(old(Now()), Now(), r, ps, lo, k) && Fresh(old(tabs)[r].pt, tabs[r].pt, lo, k)
      ensures Zeroed(mem, tabs[r].pt, lo, k) && AllOwned(place, r, tabs[r].pt, lo, k)
      ensures k == n ==> ps == Paths(lo, n)
      ensures k < n ==> Scarce(Have(old(Now()), r), old(F()), Paths(lo, n), n)
    {
      hide Valid;
      hide World;
      hide Took;
      hide Scarce;
      hide Path;
      hide MkPte;
      hide Growing;
      ghost var a := Now();
      SoundOf();
      GrowingNone(a, r, lo);
      k := 0;
      while k < n
        invariant k <= n && Valid() && |kmem.head| == |old(kmem.head)| && r in tabs
        invariant Growing(a, Now(), r, lo, k)
      {
        ghost var b := Now();
        SoundOf();
        GrowingNext(a, b, r, lo, k);
        ghost var p, qs;
        var ok;
        ok, p, qs := GrowOne(r, lo + k, FilledWith(0), ZeroPage(), USER, cid);
        if !ok {
          GrowingStop(a, b, Now(), r, qs, lo, k, n);
          ps := Paths(lo, k) + qs;
          return;
        }
        GrowingStep(a, b, Now(), r, qs, lo, k, p);
        k := k + 1;
      }
      GrowingOf(a, Now(), r, lo, k);
      ps := Paths(lo, k);
    }

    /** The error branch of uvmalloc(). */
    method UndoGrowth(r: nat, ghost a: Snap, ghost ps: set<Pos>, lo: nat, k: nat, cid: nat)
      requires Valid() && cid < |kmem.head| && r in tabs && Sound(a) && Took(a, Now(), r, ps, lo, k)
      requires Fresh(a.tabs[r].pt, tabs[r].pt, lo, k) && AllOwned(place, r, tabs[r].pt, lo, k)
      modifies this, kmem
      ensures Valid() && |kmem.head| == |old(kmem.head)| && r in tabs
      ensures Took(a, Now(), r, ps, 0, 0) && tabs[r].pt == a.tabs[r].pt
    {
      PageUpWhole(lo, k);
      FreshUndo(a.tabs[r].pt, tabs[r].pt, lo, k);
      hide *;
      ghost var b := Now();
      var _ := Uvmdealloc(r, (lo + k) * PGSIZE, lo * PGSIZE, cid);
      GrowthUndone(a, b, Now(), r, ps, lo, k);
    }

    /** uvmalloc(): zeroed pages of the table's own up to newsz, or the old map again.  It fails
        exactly when the free pages are fewer than these and the missing page table pages; then
        only page table pages that were added on the way stay with the table. */
    method Uvmalloc(r: nat, oldsz: nat, newsz: nat, cid: nat) returns (res: nat, ghost ok: bool, ghost ps: set<Pos>)
      requires Valid() && cid < |kmem.head| && r in tabs && PageUp(newsz) <= MAXVPN
      requires forall v :: PageUp(oldsz) <= v < PageUp(newsz) ==> v !in tabs[r].pt
      modifies this, kmem
      ensures Valid() && |kmem.head| == |old(kmem.head)| && r in tabs
      ensures newsz < oldsz ==> res == oldsz && Now() == old(Now())
      ensures newsz >= oldsz ==> res == (if ok then newsz else 0)
      ensures newsz >= oldsz ==> var lo, n := PageUp(oldsz), Extra(oldsz, newsz);
                (ok <==> !Scarce(Have(old(Now()), r), old(F()), Paths(lo, n), n))
      ensures newsz >= oldsz && ok ==> var lo, n := PageUp(oldsz), Extra(oldsz, newsz);
                && Took(old(Now()), Now(), r, Paths(lo, n), lo, n) && AllOwned(place, r, tabs[r].pt, lo, n)
                && Fresh(old(tabs)[r].pt, tabs[r].pt, lo, n) && Zeroed(mem, tabs[r].pt, lo, n)
      ensures newsz >= oldsz && !ok ==> Took(old(Now()), Now(), r, ps, 0, 0) && tabs[r].pt == old(tabs)[r].pt
    {
      PageUpGrows(oldsz, newsz);
      ghost var a := Now();
      SoundOf();
      hide *;
      ps := {};
      if newsz < oldsz {
        return oldsz, true, ps;
      }
      var lo := PageUp(oldsz);
      var n := Extra(oldsz, newsz);
      var k;
      k, ps := GrowPages(r, lo, n, cid);
      if k != n {
        UndoGrowth(r, a, ps, lo, k, cid);
        return 0, false, ps;
      }
      TookEnough(a, Now(), r, ps, lo, n);
      return newsz, true, ps;
    }

    /** What the loop of uvmcopy() reads of the parent's page v. */
    method FetchPage(q: nat, v: nat) returns (frame: Frame, flags: Flags)
      requires Valid() && q in tabs && v in tabs[q].pt && tabs[q].pt[v].ppn in mem
      ensures Shows(frame, mem[tabs[q].pt[v].ppn]) && flags == tabs[q].pt[v].flags
      ensures IsValid(tabs[q].pt[v]) && LeafPerm(flags)
    {
      TreeOf(q);
      TabOf(mem, F(), tabs, place, q);
      assert LeafAt(place, q, v, tabs[q].pt[v]);
      MappedEntry(mem, q, tabs[q].nodes, tabs[q].pt, v);
      assert ReadsAt(mem, q, tabs[q].pt, v);
      hide World;
      hide Tree;
      hide Reads;
      hide Descend;
      hide Px;
      var node := Find(q, v);
      var pte := LoadPte(node.value, Px(0, v));
      return kmem.ram[pte.ppn], pte.flags;
    }

    /** The loop of uvmcopy(): the parent's first n pages, or as many as there is memory for. */
    method CopyPages(q: nat, r: nat, n: nat, cid: nat) returns (k: nat, ghost ps: set<Pos>)
      requires Valid() && cid < |kmem.head| && r in tabs && q in tabs && q != r && n <= MAXVPN
      requires forall v :: 0 <= v < n ==> v !in tabs[r].pt && v in tabs[q].pt && tabs[q].pt[v].ppn in mem
      modifies this, kmem
      ensures Valid() && |kmem.head| == |old(kmem.head)| && r in tabs && k <= n
      ensures Took(old(Now()), Now(), r, ps, 0, k) && Fresh(old(tabs)[r].pt, tabs[r].pt, 0, k)
      ensures Copied(old(mem), old(tabs)[q].pt, mem, tabs[r].pt, k) && AllOwned(place, r, tabs[r].pt, 0, k)
      ensures k == n ==> ps == Paths(0, n)
      ensures k < n ==> Scarce(Have(old(Now()), r), old(F()), Paths(0, n), n)
    {
      hide Valid;
      hide World;
      hide Took;
      hide Scarce;
      hide Path;
      hide MkPte;
      hide Copying;
      ghost var a := Now();
      SoundOf();
      CopyingNone(a, q, r);
      k := 0;
      while k < n
        invariant k <= n && Valid() && |kmem.head| == |old(kmem.head)| && r in tabs
        invariant Copying(a, Now(), q, r, k)
      {
        ghost var b := Now();
        SoundOf();
        CopyingNext(a, b, q, r, k);
        var frame, flags := FetchPage(q, k);
        ghost var p, qs;
        var ok;
        ok, p, qs := GrowOne(r, k, frame, mem[tabs[q].pt[k].ppn], flags, cid);
        if !ok {
          CopyingStop(a, b, Now(), q, r, qs, k, n);
          ps := Paths(0, k) + qs;
          return;
        }
        CopyingStep(a, b, Now(), q, r, qs, k, p);
        k := k + 1;
      }
      CopyingOf(a, Now(), q, r, k);
      ps := Paths(0, k);
    }

    /** uvmcopy(): the parent's pages with flags and contents, in pages of the child's own, or the
        old map again.  It fails exactly when the free pages are fewer than these and the page
        table pages they need.  The parent and every other table keep all they have. */
    method Uvmcopy(q: nat, r: nat, sz: nat, cid: nat) returns (ok: bool, ghost ps: set<Pos>)
      requires Valid() && cid < |kmem.head| && r in tabs && q in tabs && q != r && PageUp(sz) <= MAXVPN
      requires forall v :: 0 <= v < PageUp(sz) ==> v !in tabs[r].pt && v in tabs[q].pt && tabs[q].pt[v].ppn in mem
      modifies this, kmem
      ensures Valid() && |kmem.head| == |old(kmem.head)| && r in tabs
      ensures ok <==> !Scarce(Have(old(Now()), r), old(F()), Paths(0, PageUp(sz)), PageUp(sz))
      ensures ok ==> Took(old(Now()), Now(), r, Paths(0, PageUp(sz)), 0, PageUp(sz))
      ensures ok ==> Fresh(old(tabs)[r].pt, tabs[r].pt, 0, PageUp(sz)) && AllOwned(place, r, tabs[r].pt, 0, PageUp(sz))
      ensures ok ==> Copied(old(mem), old(tabs)[q].pt, mem, tabs[r].pt, PageUp(sz))
      ensures !ok ==> Took(old(Now()), Now(), r, ps, 0, 0) && tabs[r].pt == old(tabs)[r].pt
    {
      ghost var a := Now();
      SoundOf();
      hide *;
      var n := PageUp(sz);
      var k;
      k, ps := CopyPages(q, r, n, cid);
      ok := k == n;
      if k != n {
        UndoGrowth(r, a, ps, 0, k, cid);
      } else {
        TookEnough(a, Now(), r, ps, 0, n);
      }
    }

    /** uvmclear(): the user loses one page; no page moves and nothing else changes. */
    method Uvmclear(r: nat, vpn: nat)
      requires Valid() && r in tabs && vpn < MAXVPN && Descend(mem, r, vpn, 0).Some?
      modifies this, kmem`ram
      ensures Valid() && F() == old(F()) && place == old(place) && Kept(old(mem), mem, old(tabs)[r].nodes.Keys)
      ensures vpn !in old(tabs)[r].pt ==> tabs == old(tabs)
      ensures vpn in old(tabs)[r].pt ==>
                var tab := old(tabs)[r];
                var pte := tab.pt[vpn].(flags := tab.pt[vpn].flags.(u := false));
                tabs == old(tabs)[r := Tab(tab.nodes, tab.pt[vpn := pte])] && Maps(kmem.ram, r, vpn, pte)
    {
      hide Maps;
      hide Faults;
      hide Kept;
      hide Valid;
      hide World;
      hide Descend;
      hide Px;
      hide Left;
      hide PutPte;
      hide Mappable;
      SoundOf();
      ClearableEntry(Now(), r, vpn);
      var node := Find(r, vpn);
      var pte := LoadPte(node.value, Px(0, vpn));
      Cleared(tabs, place, r, vpn, pte);
      WritePte(r, vpn, node.value, pte.(flags := pte.flags.(u := false)));
      Translates(r, vpn);
    }

    /** uvmcreate(): a page table that maps nothing; 0 exactly when no page is free. */
    method Uvmcreate(cid: nat) returns (r: nat)
      requires Valid() && cid < |kmem.head|
      modifies this, kmem
      ensures Valid() && |kmem.head| == |old(kmem.head)|
      ensures r == 0 <==> old(F()) == {}
      ensures r == 0 ==> Now() == old(Now())
      ensures r != 0 ==> r !in old(tabs) && tabs == old(tabs)[r := Tab(map[r := Pos(2, 0)], map[])]
      ensures r != 0 ==> r in old(F()) && F() == old(F()) - {r} && place == old(place)[r := Node(r)]
      ensures r != 0 ==> mem == old(mem)[r := Table(seq(ENTRIES, j => ZERO))]
    {
      hide World;
      hide Agree;
      hide NoDup;
      hide FreePages;
      ClearShows();
      r := NewPage(ClearWords(), Table(seq(ENTRIES, j => ZERO)), cid);
      if r != 0 {
        CreateStep(mem, F(), tabs, place, r);
        tabs := tabs[r := Tab(map[r := Pos(2, 0)], map[])];
        place := place[r := Node(r)];
      }
    }

    /** pagetable[i] = 0 in a page that no table has any more. */
    method ClearEntry(n: nat, i: nat)
      requires Valid() && IsTable(mem, n) && i < ENTRIES && Loose(tabs, place, n)
      modifies this`mem, kmem`ram
      ensures Valid() && F() == old(F()) && mem == SetEntry(old(mem), n, i, ZERO)
    {
      hide World;
      hide Agree;
      hide NoDup;
      hide FreePages;
      assert forall q :: q in tabs ==> NotOf(tabs[q], n);
      DataStep(mem, F(), tabs, place, n, Table(mem[n].ptes[i := ZERO]));
      StoreWord(n, i, ZERO);
    }

    /** freewalk(): frees page n of a tree without leaves, and every page table page below it. */
    method Freewalk(n: nat, ghost root: nat, ghost ns: Nodes, cid: nat)
      requires Valid() && cid < |kmem.head| && Tree(mem, root, ns) && NoLeaves(mem, ns) && n in ns
      requires AllLoose(tabs, place, ns.Keys)
      modifies this, kmem
      ensures Valid() && |kmem.head| == |old(kmem.head)| && tabs == old(tabs)
      ensures place == Freed(old(place), Under(ns, ns[n])) && Kept(old(mem), mem, Under(ns, ns[n]))
      decreases ns[n].level
    {
      hide Valid;
      hide World;
      hide Under;
      hide Tree;
      hide Kept;
      hide Freed;
      hide Loose;
      hide Freeing;
      hide NoLeaves;
      FreeingStart(mem, ns, root, n);
      FreedMore(place, {}, {});
      ghost var live: Nodes, freed: set<nat> := ns, {};
      var i := 0;
      while i < ENTRIES
        invariant i <= ENTRIES && Freeing(old(mem), ns, root, n, i, mem, live, freed)
        invariant Valid() && |kmem.head| == |old(kmem.head)| && tabs == old(tabs) && place == Freed(old(place), freed)
      {
        FreeingOf(old(mem), ns, root, n, i, mem, live, freed);
        LooseLeft(tabs, old(place), ns.Keys, live.Keys, freed);
        assert Loose(tabs, place, n);
        var pte := LoadPte(n, i);
        if IsValid(pte) {
          FreeingChild(old(mem), ns, root, n, i, mem, live, freed);
          ghost var mem1, u := mem, Under(live, Child(live[n], i));
          Freewalk(pte.ppn, root, live, cid);
          FreedMore(old(place), freed, u);
          FreeingNext(old(mem), ns, root, n, i, mem1, live, freed, mem);
          assert Loose(tabs, place, n) by { LooseOutside(tabs, old(place), ns.Keys, freed + u, n); }
          ClearEntry(n, i);
          freed, live := freed + u, live - u;
        } else {
          FreeingSkip(old(mem), ns, root, n, i, mem, live, freed);
        }
        i := i + 1;
      }
      FreeingDone(old(mem), ns, root, n, mem, live, freed);
      FreeingOf(old(mem), ns, root, n, ENTRIES, mem, live, freed);
      LooseOutside(tabs, old(place), ns.Keys, freed, n);
      FreedOne(old(place), freed, n);
      ghost var mem1 := mem;
      GivePage(n, cid);
      KeptBut(old(mem), mem1, mem, Under(ns, ns[n]), n);
    }

    /** uvmfree(): every page of the address space, leaf or table, is free again, and no other page
        moves. */
    method Uvmfree(r: nat, sz: nat, cid: nat)
      requires Valid() && cid < |kmem.head| && r in tabs && AllOwned(place, r, tabs[r].pt, 0, PageUp(sz))
      requires forall v :: v in tabs[r].pt ==> v < PageUp(sz)
      modifies this, kmem
      ensures Valid() && |kmem.head| == |old(kmem.head)| && tabs == old(tabs) - {r}
      ensures place == Reclaimed(old(place), r)
      ensures Kept(old(mem), mem, Hit(old(place), r, 0, PageUp(sz)))
    {
      hide Valid;
      hide World;
      hide Kept;
      hide Tree;
      hide Reads;
      ghost var a, n := Now(), PageUp(sz);
      SoundOf();
      OwnedMapped(place, r, tabs[r].pt, 0, n);
      Uvmunmap(r, 0, PageUp(sz), true, cid);
      ghost var b := Now();
      SoundOf();
      TreeOf(r);
      NothingMapped(a.tabs[r].pt, n);
      AllUnmapped(b, r);
      DropStep(b.mem, b.free, b.tabs, b.place, r);
      UnderRoot(b.mem, r, b.tabs[r].nodes);
      Forget(r);
      Freewalk(r, r, b.tabs[r].nodes, cid);
      ReclaimedAll(a, r, n);
      NodesHit(a, r, n);
      KeptTwice(a.mem, b.mem, mem, Hit(a.place, r, 0, n), b.tabs[r].nodes.Keys);
      assert tabs == a.tabs - {r};
    }

    /** A page table that is about to be freed is a table no longer; nothing happens in memory. */
    ghost method Forget(r: nat)
      requires Valid() && r in tabs && World(mem, F(), tabs - {r}, Dropped(place, r))
      modifies this`tabs, this`place
      ensures Valid() && tabs == old(tabs) - {r} && place == Dropped(old(place), r)
    {
      hide World;
      hide Agree;
      hide NoDup;
      hide FreePages;
      tabs, place := tabs - {r}, Dropped(place, r);
    }
  }

  /** A mapped page number has a leaf table page holding its entry. */
  lemma MappedEntry(mem: Memory, root: nat, nodes: Nodes, pt: map<nat, Pte>, vpn: nat)
    requires Tree(mem, root, nodes) && Reads(mem, root, pt) && vpn in pt
    ensures vpn < MAXVPN && Descend(mem, root, vpn, 0).Some? && Px(0, vpn) < ENTRIES
    ensures var n := Descend(mem, root, vpn, 0).value;
            n in nodes && IsTable(mem, n) && mem[n].ptes[Px(0, vpn)] == pt[vpn]
  {
    assert ReadsAt(mem, root, pt, vpn);
    DescendPos(mem, root, nodes, vpn, 0);
    PxBound(0, vpn);
    assert NodeOk(mem, root, nodes, Descend(mem, root, vpn, 0).value);
  }

  lemma DescendNext(mem: Memory, root: nat, vpn: nat, level: nat, n: nat)
    requires 0 < level <= 2 && Descend(mem, root, vpn, level) == Some(n) && IsTable(mem, n)
    requires Px(level, vpn) < ENTRIES
    ensures IsValid(mem[n].ptes[Px(level, vpn)]) ==>
              Descend(mem, root, vpn, level - 1) == Some(mem[n].ptes[Px(level, vpn)].ppn)
    ensures !IsValid(mem[n].ptes[Px(level, vpn)]) ==> Descend(mem, root, vpn, level - 1) == None
  {
  }

  /** A path that ends early has no lower pages. */
  lemma {:induction false} DescendStops(mem: Memory, root: nat, vpn: nat, level: nat)
    requires level <= 2 && Descend(mem, root, vpn, level) == None
    ensures Descend(mem, root, vpn, 0) == None
  {
    if level == 1 {
      assert Descend(mem, root, vpn, 0) == None;
    }
  }
}
