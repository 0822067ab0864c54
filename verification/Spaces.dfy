/** Where every physical page is.  Any number of user page tables live in one memory, next to
    one set of free lists; a page is free, a page table page of one table, mapped as a leaf of
    one table at one page number, or in somebody's hands.  Each step that vm.c takes on one
    table keeps this for all of them. */
module Spaces {
  import opened Options
  import opened Sv39

  /** A user page table: the positions of its page table pages, and the map it stands for. */
  datatype Tab = Tab(nodes: Nodes, pt: map<nat, Pte>)
  type Tabs = map<nat, Tab> // by root page

  datatype Place = Free | Node(r: nat) | Leaf(r: nat, v: nat) | Held
  type Places = map<nat, Place>

  // ---------------------------------------------------------------- the invariant

  ghost predicate NodesAt(place: Places, r: nat, t: Tab) {
    forall n :: n in t.nodes ==> n in place && place[n] == Node(r)
  }

  /** A mapped page belongs to that place of the table, or to somebody who has it mapped there:
      the trampoline and the trap frame of a process are such pages. */
  ghost predicate LeafAt(place: Places, r: nat, v: nat, pte: Pte) {
    IsLeaf(pte) && (pte.ppn in place ==> place[pte.ppn] == Leaf(r, v) || place[pte.ppn] == Held)
  }

  ghost predicate LeavesAt(place: Places, r: nat, t: Tab) {
    forall v :: v in t.pt ==> LeafAt(place, r, v, t.pt[v])
  }

  ghost predicate TabIn(mem: Memory, place: Places, r: nat, t: Tab) {
    Tree(mem, r, t.nodes) && Reads(mem, r, t.pt) && NodesAt(place, r, t) && LeavesAt(place, r, t)
  }

  ghost predicate PlaceOk(tabs: Tabs, place: Places, p: nat)
    requires p in place
  {
    match place[p]
    case Node(r) => r in tabs && p in tabs[r].nodes
    case Leaf(r, v) => r in tabs && v in tabs[r].pt && tabs[r].pt[v].ppn == p
    case _ => true
  }

  /** Every page of the machine is in the one place that is recorded for it. */
  ghost predicate World(mem: Memory, free: set<nat>, tabs: Tabs, place: Places) {
    && 0 !in place
    && (forall p :: p in free <==> p in place && place[p] == Free)
    && (forall r :: r in tabs ==> TabIn(mem, place, r, tabs[r]))
    && (forall p :: p in place ==> PlaceOk(tabs, place, p))
  }

  /** Page v of table r is mapped to a page of its own. */
  ghost predicate Owned(place: Places, r: nat, pt: map<nat, Pte>, v: nat) {
    v in pt && pt[v].ppn in place && place[pt[v].ppn] == Leaf(r, v)
  }

  ghost predicate NotOf(t: Tab, p: nat) {
    p !in t.nodes && forall v :: v in t.pt ==> t.pt[v].ppn != p
  }

  ghost predicate Unused(tabs: Tabs, p: nat) {
    forall q :: q in tabs ==> NotOf(tabs[q], p)
  }

  /** Page p is in somebody's hands, and no table has it. */
  ghost predicate Loose(tabs: Tabs, place: Places, p: nat) {
    p in place && place[p] == Held && Unused(tabs, p)
  }

  // ---------------------------------------------------------------- what it says

  lemma TabOf(mem: Memory, free: set<nat>, tabs: Tabs, place: Places, r: nat)
    requires World(mem, free, tabs, place) && r in tabs
    ensures TabIn(mem, place, r, tabs[r])
  {
  }

  /** Each page is in exactly one place: free, a node of one table, the leaf of one table at one
      page number, or held; and that place really has it. */
  lemma OnePlace(mem: Memory, free: set<nat>, tabs: Tabs, place: Places, p: nat, r: nat, v: nat)
    requires World(mem, free, tabs, place) && p in place
    ensures p in free <==> place[p] == Free
    ensures r in tabs && p in tabs[r].nodes <==> place[p] == Node(r)
    ensures r in tabs && Owned(place, r, tabs[r].pt, v) && tabs[r].pt[v].ppn == p <==> place[p] == Leaf(r, v)
  {
    assert PlaceOk(tabs, place, p);
    if r in tabs {
      assert TabIn(mem, place, r, tabs[r]);
    }
  }

  /** A table has no page that is free, and as a page table page none that is held. */
  lemma FreeNotOf(mem: Memory, place: Places, q: nat, t: Tab, p: nat)
    requires TabIn(mem, place, q, t) && p in place
    ensures place[p] == Free ==> NotOf(t, p)
    ensures place[p] == Held ==> p !in t.nodes
  {
    hide Tree;
    hide Reads;
    forall v | v in t.pt
      ensures place[p] == Free ==> t.pt[v].ppn != p
    {
      assert LeafAt(place, q, v, t.pt[v]);
    }
  }

  lemma FreeUnused(mem: Memory, free: set<nat>, tabs: Tabs, place: Places, p: nat)
    requires World(mem, free, tabs, place) && p in free
    ensures p in place && place[p] == Free && Unused(tabs, p)
  {
    forall q | q in tabs
      ensures NotOf(tabs[q], p)
    {
      TabOf(mem, free, tabs, place, q);
      FreeNotOf(mem, place, q, tabs[q], p);
    }
    hide TabIn;
  }

  /** A page of a table's own is mapped there and nowhere else, in no table. */
  lemma OwnedOnce(mem: Memory, free: set<nat>, tabs: Tabs, place: Places, r: nat, v: nat, q: nat, w: nat)
    requires World(mem, free, tabs, place) && r in tabs && q in tabs && Owned(place, r, tabs[r].pt, v)
    ensures tabs[r].pt[v].ppn !in tabs[q].nodes && tabs[r].pt[v].ppn != 0
    ensures w in tabs[q].pt && tabs[q].pt[w].ppn == tabs[r].pt[v].ppn ==> q == r && w == v
  {
    hide Tree;
    hide Reads;
    assert TabIn(mem, place, q, tabs[q]);
    if w in tabs[q].pt {
      assert LeafAt(place, q, w, tabs[q].pt[w]);
    }
  }

  /** Mapped pages are nobody's page table pages. */
  lemma LeafNotNode(mem: Memory, free: set<nat>, tabs: Tabs, place: Places, r: nat, v: nat, q: nat)
    requires World(mem, free, tabs, place) && r in tabs && q in tabs && v in tabs[r].pt
    ensures tabs[r].pt[v].ppn !in tabs[q].nodes
  {
    assert TabIn(mem, place, r, tabs[r]) && TabIn(mem, place, q, tabs[q]);
    assert LeafAt(place, r, v, tabs[r].pt[v]);
  }

  // ---------------------------------------------------------------- steps

  /** A table none of whose pages changes, in contents or in place. */
  lemma TabFrame(mem: Memory, mem': Memory, place: Places, place': Places, q: nat, t: Tab)
    requires TabIn(mem, place, q, t) && place'.Keys == place.Keys
    requires forall n :: n in t.nodes && n in mem ==> n in mem' && mem'[n] == mem[n]
    requires forall p :: p in place && place'[p] != place[p] ==> NotOf(t, p)
    ensures TabIn(mem', place', q, t)
  {
    hide Tree;
    hide Reads;
    TableFrame(mem, mem', q, t.nodes, t.pt);
    forall v | v in t.pt
      ensures LeafAt(place', q, v, t.pt[v])
    {
      assert LeafAt(place, q, v, t.pt[v]);
    }
  }

  /** A page that no table has changes its place and its contents. */
  lemma LooseStep(mem: Memory, free: set<nat>, tabs: Tabs, place: Places, p: nat, pg: Page, to: Place)
    requires World(mem, free, tabs, place) && p in place && Unused(tabs, p)
    requires (place[p] == Free || place[p] == Held) && (to == Free || to == Held)
    ensures World(mem[p := pg], if to == Free then free + {p} else free - {p}, tabs, place[p := to])
    ensures to == Held ==> Loose(tabs, place[p := to], p)
  {
    hide TabIn;
    var place' := place[p := to];
    forall q | q in tabs
      ensures TabIn(mem[p := pg], place', q, tabs[q])
    {
      assert NotOf(tabs[q], p);
      OtherTab(mem, free, tabs, place, mem[p := pg], place', q, {p});
    }
    forall x | x in place'
      ensures PlaceOk(tabs, place', x)
    {
      assert PlaceOk(tabs, place, x);
    }
  }

  /** The contents of a page that is no table's page table page do not matter. */
  lemma DataStep(mem: Memory, free: set<nat>, tabs: Tabs, place: Places, p: nat, pg: Page)
    requires World(mem, free, tabs, place) && forall q :: q in tabs ==> p !in tabs[q].nodes
    ensures World(mem[p := pg], free, tabs, place)
  {
    forall q | q in tabs
      ensures TabIn(mem[p := pg], place, q, tabs[q])
    {
      TabFrame(mem, mem[p := pg], place, place, q, tabs[q]);
    }
  }

  /** A table to which the pages that changed do not belong. */
  lemma OtherTab(mem: Memory, free: set<nat>, tabs: Tabs, place: Places, mem': Memory, place': Places, q: nat,
                 pages: set<nat>)
    requires World(mem, free, tabs, place) && q in tabs && place'.Keys == place.Keys
    requires forall p :: p in pages ==> NotOf(tabs[q], p)
    requires forall p :: p in mem && p !in pages ==> p in mem' && mem'[p] == mem[p]
    requires forall p :: p in place && p !in pages ==> place'[p] == place[p]
    ensures TabIn(mem', place', q, tabs[q])
  {
    TabOf(mem, free, tabs, place, q);
    hide World;
    hide TabIn;
    TabFrame(mem, mem', place, place', q, tabs[q]);
  }

  /** Table r takes loose page c as a page table page. */
  lemma LinkStep(mem: Memory, free: set<nat>, tabs: Tabs, place: Places, r: nat, n: nat, i: nat, c: nat)
    requires World(mem, free, tabs, place) && r in tabs && Loose(tabs, place, c) && n in tabs[r].nodes
    requires tabs[r].nodes[n].level > 0 && i < ENTRIES && IsTable(mem, n) && !IsValid(mem[n].ptes[i])
    requires InBounds(Child(tabs[r].nodes[n], i))
    ensures c !in tabs[r].nodes && c != n
    ensures World(LinkNode(mem, n, i, c), free, tabs[r := Tab(AddPos(tabs[r].nodes, n, i, c), tabs[r].pt)],
                  place[c := Node(r)])
  {
    hide TabIn;
    hide InBounds;
    hide Child;
    hide PlaceOk;
    assert NotOf(tabs[r], c);
    var mem', t' := LinkNode(mem, n, i, c), Tab(AddPos(tabs[r].nodes, n, i, c), tabs[r].pt);
    var tabs', place' := tabs[r := t'], place[c := Node(r)];
    TabOf(mem, free, tabs, place, r);
    LinkedTab(mem, place, r, tabs[r], n, i, c);
    forall q | q in tabs'
      ensures TabIn(mem', place', q, tabs'[q])
    {
      if q != r {
        LinkOther(mem, free, tabs, place, r, n, i, c, q);
      }
    }
    hide LinkNode;
    hide AddPos;
    forall x | x in place'
      ensures PlaceOk(tabs', place', x)
    {
      LinkPlace(tabs, place, r, n, i, c, x);
    }
  }

  lemma LinkPlace(tabs: Tabs, place: Places, r: nat, n: nat, i: nat, c: nat, x: nat)
    requires r in tabs && n in tabs[r].nodes && tabs[r].nodes[n].level > 0
    requires c in place && x in place && PlaceOk(tabs, place, x)
    ensures PlaceOk(tabs[r := Tab(AddPos(tabs[r].nodes, n, i, c), tabs[r].pt)], place[c := Node(r)], x)
  {
  }

  lemma LinkOther(mem: Memory, free: set<nat>, tabs: Tabs, place: Places, r: nat, n: nat, i: nat, c: nat, q: nat)
    requires World(mem, free, tabs, place) && r in tabs && q in tabs && q != r && n in tabs[r].nodes && c != n
    requires IsTable(mem, n) && i < ENTRIES && c in place && NotOf(tabs[q], c)
    ensures TabIn(LinkNode(mem, n, i, c), place[c := Node(r)], q, tabs[q])
  {
    hide World;
    NodeOnce(mem, free, tabs, place, r, n, q);
    OtherTab(mem, free, tabs, place, LinkNode(mem, n, i, c), place[c := Node(r)], q, {n, c});
  }

  lemma LinkedTab(mem: Memory, place: Places, r: nat, t: Tab, n: nat, i: nat, c: nat)
    requires TabIn(mem, place, r, t) && NotOf(t, c) && c in place && n in t.nodes
    requires t.nodes[n].level > 0 && i < ENTRIES && IsTable(mem, n) && !IsValid(mem[n].ptes[i])
    requires InBounds(Child(t.nodes[n], i))
    ensures c != n && TabIn(LinkNode(mem, n, i, c), place[c := Node(r)], r, Tab(AddPos(t.nodes, n, i, c), t.pt))
  {
    hide Tree;
    hide Reads;
    hide InBounds;
    hide Child;
    hide LinkNode;
    LinkTree(mem, r, t.nodes, n, i, c);
    ReadsLink(mem, r, t.nodes, t.pt, n, i, c);
    forall v | v in t.pt
      ensures LeafAt(place[c := Node(r)], r, v, t.pt[v])
    {
      assert LeafAt(place, r, v, t.pt[v]);
    }
  }

  /** No page table page is in two tables. */
  lemma NodeOnce(mem: Memory, free: set<nat>, tabs: Tabs, place: Places, r: nat, n: nat, q: nat)
    requires World(mem, free, tabs, place) && r in tabs && q in tabs && q != r && n in tabs[r].nodes
    ensures n !in tabs[q].nodes && NotOf(tabs[q], n)
  {
    hide Tree;
    hide Reads;
    assert TabIn(mem, place, r, tabs[r]) && TabIn(mem, place, q, tabs[q]);
    forall v | v in tabs[q].pt
      ensures tabs[q].pt[v].ppn != n
    {
      assert LeafAt(place, q, v, tabs[q].pt[v]);
    }
  }

  /** The places after the entry of page v of table r has been overwritten: a page of the
      table's own that is no longer mapped there is in somebody's hands. */
  ghost function Left(place: Places, r: nat, pt: map<nat, Pte>, v: nat, pte: Pte): Places {
    if Owned(place, r, pt, v) && !(IsValid(pte) && pte.ppn == pt[v].ppn) then place[pt[v].ppn := Held] else place
  }

  /** What a table may map at page v: a page it owns there, a held one, or one outside. */
  ghost predicate Mappable(place: Places, r: nat, v: nat, p: nat) {
    p in place ==> place[p] == Held || place[p] == Leaf(r, v)
  }

  lemma WrittenNodes(mem: Memory, free: set<nat>, tabs: Tabs, place: Places, r: nat, v: nat, pte: Pte)
    requires World(mem, free, tabs, place) && r in tabs
    ensures NodesAt(Left(place, r, tabs[r].pt, v, pte), r, Tab(tabs[r].nodes, PutPte(tabs[r].pt, v, pte)))
  {
    hide World;
    hide Tree;
    hide Reads;
    TabOf(mem, free, tabs, place, r);
    if Owned(place, r, tabs[r].pt, v) {
      OwnedOnce(mem, free, tabs, place, r, v, r, v);
    }
    hide LeavesAt;
  }

  lemma WrittenLeaf(mem: Memory, free: set<nat>, tabs: Tabs, place: Places, r: nat, v: nat, pte: Pte, w: nat)
    requires World(mem, free, tabs, place) && r in tabs && w in PutPte(tabs[r].pt, v, pte)
    requires IsValid(pte) ==> IsLeaf(pte) && Mappable(place, r, v, pte.ppn)
    ensures LeafAt(Left(place, r, tabs[r].pt, v, pte), r, w, PutPte(tabs[r].pt, v, pte)[w])
  {
    hide World;
    hide Tree;
    hide Reads;
    TabOf(mem, free, tabs, place, r);
    if w != v {
      assert LeafAt(place, r, w, tabs[r].pt[w]);
      if Owned(place, r, tabs[r].pt, v) {
        OwnedOnce(mem, free, tabs, place, r, v, r, w);
      }
    }
    hide LeavesAt;
    hide NodesAt;
  }

  lemma WrittenTab(mem: Memory, free: set<nat>, tabs: Tabs, place: Places, r: nat, v: nat, pte: Pte)
    requires World(mem, free, tabs, place) && r in tabs && v < MAXVPN && Descend(mem, r, v, 0).Some?
    requires IsValid(pte) ==> IsLeaf(pte) && Mappable(place, r, v, pte.ppn)
    ensures var n := Descend(mem, r, v, 0).value;
            && n in tabs[r].nodes && IsTable(mem, n) && Px(0, v) < ENTRIES
            && TabIn(SetEntry(mem, n, Px(0, v), pte), Left(place, r, tabs[r].pt, v, pte), r,
                     Tab(tabs[r].nodes, PutPte(tabs[r].pt, v, pte)))
  {
    hide Tree;
    hide Reads;
    TabOf(mem, free, tabs, place, r);
    ReadsWrite(mem, r, tabs[r].nodes, tabs[r].pt, v, pte);
    var place', pt' := Left(place, r, tabs[r].pt, v, pte), PutPte(tabs[r].pt, v, pte);
    WrittenNodes(mem, free, tabs, place, r, v, pte);
    forall w | w in pt'
      ensures LeafAt(place', r, w, pt'[w])
    {
      WrittenLeaf(mem, free, tabs, place, r, v, pte, w);
    }
    hide NodesAt;
    hide Left;
    hide LeafAt;
  }

  /** Writing a leaf entry of one table. */
  lemma WriteStep(mem: Memory, free: set<nat>, tabs: Tabs, place: Places, r: nat, v: nat, pte: Pte)
    requires World(mem, free, tabs, place) && r in tabs && v < MAXVPN && Descend(mem, r, v, 0).Some?
    requires IsValid(pte) ==> IsLeaf(pte) && Mappable(place, r, v, pte.ppn)
    ensures var n := Descend(mem, r, v, 0).value;
            && n in tabs[r].nodes && IsTable(mem, n) && Px(0, v) < ENTRIES
            && World(SetEntry(mem, n, Px(0, v), pte), free, tabs[r := Tab(tabs[r].nodes, PutPte(tabs[r].pt, v, pte))],
                     Left(place, r, tabs[r].pt, v, pte))
  {
    hide TabIn;
    WrittenTab(mem, free, tabs, place, r, v, pte);
    var n := Descend(mem, r, v, 0).value;
    var mem' := SetEntry(mem, n, Px(0, v), pte);
    var place', tabs' := Left(place, r, tabs[r].pt, v, pte), tabs[r := Tab(tabs[r].nodes, PutPte(tabs[r].pt, v, pte))];
    forall q | q in tabs'
      ensures TabIn(mem', place', q, tabs'[q])
    {
      if q != r {
        WriteOther(mem, free, tabs, place, r, v, pte, n, q);
      }
    }
    forall x | x in place'
      ensures PlaceOk(tabs', place', x)
    {
      assert PlaceOk(tabs, place, x);
    }
  }

  lemma WriteOther(mem: Memory, free: set<nat>, tabs: Tabs, place: Places, r: nat, v: nat, pte: Pte, n: nat, q: nat)
    requires World(mem, free, tabs, place) && r in tabs && q in tabs && q != r && n in tabs[r].nodes
    requires IsTable(mem, n) && Px(0, v) < ENTRIES
    ensures TabIn(SetEntry(mem, n, Px(0, v), pte), Left(place, r, tabs[r].pt, v, pte), q, tabs[q])
  {
    hide World;
    hide Px;
    NodeOnce(mem, free, tabs, place, r, n, q);
    var place', pages := Left(place, r, tabs[r].pt, v, pte), {n};
    if Owned(place, r, tabs[r].pt, v) {
      OwnedElsewhere(mem, free, tabs, place, r, v, q);
      pages := {n, tabs[r].pt[v].ppn};
    }
    OtherTab(mem, free, tabs, place, SetEntry(mem, n, Px(0, v), pte), place', q, pages);
  }

  lemma OwnedElsewhere(mem: Memory, free: set<nat>, tabs: Tabs, place: Places, r: nat, v: nat, q: nat)
    requires World(mem, free, tabs, place) && r in tabs && q in tabs && q != r && Owned(place, r, tabs[r].pt, v)
    ensures NotOf(tabs[q], tabs[r].pt[v].ppn)
  {
    hide World;
    OwnedOnce(mem, free, tabs, place, r, v, q, v);
    forall w | w in tabs[q].pt
      ensures tabs[q].pt[w].ppn != tabs[r].pt[v].ppn
    {
      OwnedOnce(mem, free, tabs, place, r, v, q, w);
    }
  }

  /** After a page of a table's own has been unmapped, nobody has it. */
  lemma LeftLoose(mem: Memory, free: set<nat>, tabs: Tabs, place: Places, r: nat, v: nat)
    requires World(mem, free, tabs, place) && r in tabs && Owned(place, r, tabs[r].pt, v)
    ensures Loose(tabs[r := Tab(tabs[r].nodes, PutPte(tabs[r].pt, v, ZERO))], Left(place, r, tabs[r].pt, v, ZERO),
                  tabs[r].pt[v].ppn)
  {
    var p, tabs' := tabs[r].pt[v].ppn, tabs[r := Tab(tabs[r].nodes, PutPte(tabs[r].pt, v, ZERO))];
    forall q | q in tabs'
      ensures NotOf(tabs'[q], p)
    {
      OwnedOnce(mem, free, tabs, place, r, v, q, v);
      forall w | w in tabs'[q].pt
        ensures tabs'[q].pt[w].ppn != p
      {
        OwnedOnce(mem, free, tabs, place, r, v, q, w);
      }
    }
  }

  /** Table r makes a loose page that it has just mapped its own. */
  lemma OwnStep(mem: Memory, free: set<nat>, tabs: Tabs, place: Places, tabs0: Tabs, r: nat, v: nat, p: nat)
    requires World(mem, free, tabs, place) && r in tabs && v in tabs[r].pt && tabs[r].pt[v].ppn == p
    requires Loose(tabs0, place, p) && tabs0.Keys == tabs.Keys
    requires forall q :: q in tabs && q != r ==> tabs[q] == tabs0[q]
    requires forall w :: w in tabs[r].pt && w != v ==> w in tabs0[r].pt && tabs[r].pt[w] == tabs0[r].pt[w]
    ensures World(mem, free, tabs, place[p := Leaf(r, v)])
  {
    var place' := place[p := Leaf(r, v)];
    hide TabIn;
    assert NotOf(tabs0[r], p);
    TabOf(mem, free, tabs, place, r);
    OwnTab(mem, place, r, tabs[r], v, p);
    forall q | q in tabs
      ensures TabIn(mem, place', q, tabs[q])
    {
      if q != r {
        assert NotOf(tabs0[q], p);
        OtherTab(mem, free, tabs, place, mem, place', q, {p});
      }
    }
    forall x | x in place'
      ensures PlaceOk(tabs, place', x)
    {
      assert PlaceOk(tabs, place, x);
    }
  }

  lemma OwnTab(mem: Memory, place: Places, r: nat, t: Tab, v: nat, p: nat)
    requires TabIn(mem, place, r, t) && v in t.pt && t.pt[v].ppn == p && p in place && place[p] == Held
    requires forall w :: w in t.pt && w != v ==> t.pt[w].ppn != p
    ensures TabIn(mem, place[p := Leaf(r, v)], r, t)
  {
    hide Tree;
    hide Reads;
    forall w | w in t.pt
      ensures LeafAt(place[p := Leaf(r, v)], r, w, t.pt[w])
    {
      assert LeafAt(place, r, w, t.pt[w]);
    }
  }

  /** The places after a table without leaves has been given up: its pages are held. */
  ghost function Dropped(place: Places, r: nat): Places {
    map p | p in place :: if place[p] == Node(r) then Held else place[p]
  }

  lemma DropStep(mem: Memory, free: set<nat>, tabs: Tabs, place: Places, r: nat)
    requires World(mem, free, tabs, place) && r in tabs && tabs[r].pt == map[]
    ensures World(mem, free, tabs - {r}, Dropped(place, r))
    ensures forall n :: n in tabs[r].nodes ==> Loose(tabs - {r}, Dropped(place, r), n)
  {
    var tabs', place' := tabs - {r}, Dropped(place, r);
    hide TabIn;
    forall q | q in tabs'
      ensures TabIn(mem, place', q, tabs[q])
    {
      forall p | p in tabs[r].nodes.Keys
        ensures NotOf(tabs[q], p)
      {
        NodeOnce(mem, free, tabs, place, r, p, q);
      }
      forall p | p in place && p !in tabs[r].nodes.Keys
        ensures place'[p] == place[p]
      {
        assert PlaceOk(tabs, place, p);
      }
      OtherTab(mem, free, tabs, place, mem, place', q, tabs[r].nodes.Keys);
    }
    forall x | x in place'
      ensures PlaceOk(tabs', place', x)
    {
      assert PlaceOk(tabs, place, x);
    }
    forall n | n in tabs[r].nodes
      ensures Loose(tabs', place', n)
    {
      DropLoose(mem, free, tabs, place, r, n);
    }
  }

  lemma DropLoose(mem: Memory, free: set<nat>, tabs: Tabs, place: Places, r: nat, n: nat)
    requires World(mem, free, tabs, place) && r in tabs && n in tabs[r].nodes
    ensures Loose(tabs - {r}, Dropped(place, r), n)
  {
    TabOf(mem, free, tabs, place, r);
    hide World;
    assert n in place && place[n] == Node(r);
    hide TabIn;
    forall q | q in tabs - {r}
      ensures NotOf(tabs[q], n)
    {
      NodeOnce(mem, free, tabs, place, r, n, q);
    }
  }

  /** A cleared page is a page table that maps nothing. */
  lemma EmptyTable(mem: Memory, p: nat)
    requires p in mem && mem[p] == Table(seq(ENTRIES, j => ZERO))
    ensures Tree(mem, p, map[p := Pos(2, 0)]) && Reads(mem, p, map[])
  {
    var ns: Nodes := map[p := Pos(2, 0)];
    assert NodeOk(mem, p, ns, p);
    forall v | 0 <= v < MAXVPN
      ensures ReadsAt(mem, p, map[], v)
    {
      PxBound(2, v);
      assert Follow(mem, p, Px(2, v)) == None;
      assert Descend(mem, p, v, 1) == None;
    }
  }

  lemma EmptyTab(mem: Memory, place: Places, p: nat)
    requires p in mem && mem[p] == Table(seq(ENTRIES, j => ZERO)) && p in place && place[p] == Node(p)
    ensures TabIn(mem, place, p, Tab(map[p := Pos(2, 0)], map[]))
  {
    hide Tree;
    hide Reads;
    EmptyTable(mem, p);
  }

  lemma LooseNoRoot(mem: Memory, free: set<nat>, tabs: Tabs, place: Places, p: nat)
    requires World(mem, free, tabs, place) && Loose(tabs, place, p)
    ensures p !in tabs
  {
    forall q | q in tabs
      ensures q != p
    {
      assert TabIn(mem, place, q, tabs[q]) && NotOf(tabs[q], p);
    }
  }

  /** uvmcreate(). */
  lemma CreateStep(mem: Memory, free: set<nat>, tabs: Tabs, place: Places, p: nat)
    requires World(mem, free, tabs, place) && Loose(tabs, place, p)
    requires p in mem && mem[p] == Table(seq(ENTRIES, j => ZERO))
    ensures p !in tabs && World(mem, free, tabs[p := Tab(map[p := Pos(2, 0)], map[])], place[p := Node(p)])
  {
    hide TabIn;
    hide PlaceOk;
    LooseNoRoot(mem, free, tabs, place, p);
    var tabs', place' := tabs[p := Tab(map[p := Pos(2, 0)], map[])], place[p := Node(p)];
    EmptyTab(mem, place', p);
    forall q | q in tabs'
      ensures TabIn(mem, place', q, tabs'[q])
    {
      if q != p {
        assert NotOf(tabs[q], p);
        OtherTab(mem, free, tabs, place, mem, place', q, {p});
      }
    }
    forall x | x in place'
      ensures PlaceOk(tabs', place', x)
    {
      CreatePlace(tabs, place, p, x);
    }
  }

  lemma CreatePlace(tabs: Tabs, place: Places, p: nat, x: nat)
    requires p !in tabs && p in place && x in place && PlaceOk(tabs, place, x)
    ensures PlaceOk(tabs[p := Tab(map[p := Pos(2, 0)], map[])], place[p := Node(p)], x)
  {
  }
}
