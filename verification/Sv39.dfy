/** Three-level page tables as kernel/vm.c builds them (the Sv39 scheme, section 4.4 of the
    RISC-V Privileged Architecture).  Physical memory is a map from physical page numbers
    to pages; addresses are page numbers plus byte offsets.  A page table is read as a
    finite map from virtual page numbers to page table entries. */
module Sv39 {
  import opened Options

  const ENTRIES := 512
  const MAXVPN := 0x400_0000 // MAXVA / PGSIZE

  /** The flag bits of an entry, PTE_V to PTE_U. */
  datatype Flags = Flags(v: bool, r: bool, w: bool, x: bool, u: bool)

  /** A page table entry: the physical page number and the flags. */
  datatype Pte = Pte(ppn: nat, flags: Flags)

  const NOFLAGS := Flags(false, false, false, false, false)
  const ZERO := Pte(0, NOFLAGS)

  datatype Page = Table(ptes: seq<Pte>) | Bytes(data: seq<int>)
  type Memory = map<nat, Page>

  predicate IsValid(pte: Pte) { pte.flags.v }
  predicate IsLeaf(pte: Pte) { pte.flags.r || pte.flags.w || pte.flags.x }

  /** An entry of an upper level: valid and not a leaf. */
  function Pointer(n: nat): Pte { Pte(n, NOFLAGS.(v := true)) }

  /** The 64-bit word of an entry, PA2PTE(pa) | flags, and back with PTE2PA and PTE_FLAGS. */
  function Encode(e: Pte): nat {
    var f := e.flags;
    e.ppn * 1024 + (if f.v then 1 else 0) + (if f.r then 2 else 0) + (if f.w then 4 else 0)
    + (if f.x then 8 else 0) + (if f.u then 16 else 0)
  }

  function Decode(w: nat): Pte {
    var f := w % 1024;
    Pte(w / 1024, Flags(f % 2 == 1, f / 2 % 2 == 1, f / 4 % 2 == 1, f / 8 % 2 == 1, f / 16 % 2 == 1))
  }

  lemma EntryRoundTrip(e: Pte)
    ensures Decode(Encode(e)) == e
  {
    var f := Encode(e) - e.ppn * 1024;
    assert 0 <= f < 32;
    assert Encode(e) / 1024 == e.ppn && Encode(e) % 1024 == f;
  }

  /** Pages spanned by one entry at a level. */
  function Span(level: nat): (n: nat)
    requires level <= 3
    ensures n > 0
  {
    if level == 0 then 1 else if level == 1 then 512 else if level == 2 then 262144 else 134217728
  }

  /** PX(level, va). */
  function Px(level: nat, vpn: nat): nat
    requires level <= 2
  {
    vpn / Span(level) % ENTRIES
  }

  lemma PxBound(level: nat, vpn: nat)
    requires level <= 2
    ensures Px(level, vpn) < ENTRIES
    ensures vpn / Span(level + 1) * ENTRIES + Px(level, vpn) == vpn / Span(level)
  {
  }

  // ---------------------------------------------------------------- walking

  predicate IsTable(mem: Memory, n: nat) {
    n in mem && mem[n].Table? && |mem[n].ptes| == ENTRIES
  }

  /** The page table page of the given level on the path to vpn, if it exists. */
  ghost function Descend(mem: Memory, root: nat, vpn: nat, level: nat): Option<nat>
    requires level <= 2
    decreases 2 - level
  {
    if level == 2 then Some(root)
    else
      match Descend(mem, root, vpn, level + 1)
      case None => None
      case Some(n) => Follow(mem, n, Px(level + 1, vpn))
  }

  /** The page that entry i of table page n points to. */
  ghost function Follow(mem: Memory, n: nat, i: nat): Option<nat> {
    if IsTable(mem, n) && i < ENTRIES && IsValid(mem[n].ptes[i]) then Some(mem[n].ptes[i].ppn) else None
  }

  /** The entry for vpn; zero if there is no page table page to hold it. */
  ghost function Entry(mem: Memory, root: nat, vpn: nat): Pte {
    match Descend(mem, root, vpn, 0)
    case None => ZERO
    case Some(n) => if IsTable(mem, n) && Px(0, vpn) < ENTRIES then mem[n].ptes[Px(0, vpn)] else ZERO
  }

  // ---------------------------------------------------------------- well-formed trees

  /** A page table page's level, and the upper bits of the page numbers below it. */
  datatype Pos = Pos(level: nat, prefix: nat)
  type Nodes = map<nat, Pos>

  /** The position of the page table page of the given level on the path to vpn. */
  ghost function PosOf(vpn: nat, level: nat): (p: Pos)
    requires level <= 2
    ensures p.level == level
  {
    Pos(level, vpn / Span(level + 1))
  }

  /** The position below entry i of a page table page. */
  ghost function Child(p: Pos, i: nat): Pos
    requires p.level > 0
  {
    Pos(p.level - 1, p.prefix * ENTRIES + i)
  }

  /** The page numbers at this position start below MAXVA. */
  ghost predicate InBounds(p: Pos) { p.level <= 2 && p.prefix * Span(p.level + 1) < MAXVPN }

  lemma PosStep(vpn: nat, level: nat)
    requires 0 < level <= 2
    ensures Px(level, vpn) < ENTRIES && Child(PosOf(vpn, level), Px(level, vpn)) == PosOf(vpn, level - 1)
  {
    PxBound(level, vpn);
  }

  lemma PosInBounds(vpn: nat, level: nat)
    requires level <= 2 && vpn < MAXVPN
    ensures InBounds(PosOf(vpn, level))
  {
  }

  ghost predicate NodeOk(mem: Memory, root: nat, nodes: Nodes, n: nat)
    requires n in nodes
  {
    && IsTable(mem, n) && InBounds(nodes[n])
    && (nodes[n].level > 0 ==> forall i :: 0 <= i < ENTRIES && IsValid(mem[n].ptes[i]) ==> ChildOk(mem, nodes, n, i))
    && (n != root ==> nodes[n].level < 2 && exists p :: ParentOf(mem, nodes, p, n))
  }

  /** Entry i of node n points to the node below it, and is not a leaf. */
  ghost predicate ChildOk(mem: Memory, nodes: Nodes, n: nat, i: nat)
    requires n in nodes && IsTable(mem, n) && i < ENTRIES
  {
    var pte := mem[n].ptes[i];
    pte == Pointer(pte.ppn) && pte.ppn in nodes && nodes[n].level > 0
    && nodes[pte.ppn] == Child(nodes[n], i)
  }

  ghost predicate ParentOf(mem: Memory, nodes: Nodes, p: nat, n: nat)
    requires n in nodes
  {
    && p in nodes && IsTable(mem, p)
    && nodes[p] == Pos(nodes[n].level + 1, nodes[n].prefix / ENTRIES)
    && mem[p].ptes[nodes[n].prefix % ENTRIES] == Pointer(n)
  }

  ghost predicate Tree(mem: Memory, root: nat, nodes: Nodes) {
    && root in nodes && nodes[root] == Pos(2, 0)
    && (forall n :: n in nodes ==> NodeOk(mem, root, nodes, n))
    && (forall m, n :: m in nodes && n in nodes && nodes[m] == nodes[n] ==> m == n)
  }

  lemma NodeIn(mem: Memory, root: nat, nodes: Nodes, n: nat)
    requires Tree(mem, root, nodes) && n in nodes
    ensures NodeOk(mem, root, nodes, n) && root in nodes && nodes[root] == Pos(2, 0)
  {
  }

  lemma ChildIn(mem: Memory, root: nat, nodes: Nodes, n: nat, i: nat)
    requires Tree(mem, root, nodes) && n in nodes && nodes[n].level > 0 && i < ENTRIES
    ensures IsTable(mem, n) && (IsValid(mem[n].ptes[i]) ==> ChildOk(mem, nodes, n, i))
  {
    hide Tree;
    NodeIn(mem, root, nodes, n);
  }

  lemma RootPos(mem: Memory, root: nat, nodes: Nodes, vpn: nat)
    requires Tree(mem, root, nodes) && vpn < MAXVPN
    ensures root in nodes && nodes[root] == PosOf(vpn, 2)
  {
  }

  lemma {:induction false} DescendPos(mem: Memory, root: nat, nodes: Nodes, vpn: nat, level: nat)
    requires Tree(mem, root, nodes) && vpn < MAXVPN && level <= 2
    ensures var d := Descend(mem, root, vpn, level);
            d.Some? ==> d.value in nodes && nodes[d.value] == PosOf(vpn, level)
    decreases 2 - level
  {
    hide Tree;
    hide PosOf;
    if level == 2 {
      RootPos(mem, root, nodes, vpn);
    } else {
      DescendPos(mem, root, nodes, vpn, level + 1);
      var d := Descend(mem, root, vpn, level + 1);
      if d.Some? && Descend(mem, root, vpn, level).Some? {
        PosStep(vpn, level + 1);
        ChildIn(mem, root, nodes, d.value, Px(level + 1, vpn));
      }
    }
  }

  lemma TreeNode(mem: Memory, root: nat, nodes: Nodes, n: nat)
    requires Tree(mem, root, nodes) && n in nodes
    ensures IsTable(mem, n) && InBounds(nodes[n]) && (n != root ==> nodes[n].level < 2)
  {
    assert NodeOk(mem, root, nodes, n);
  }

  // ---------------------------------------------------------------- writing a leaf entry

  function SetEntry(mem: Memory, n: nat, i: nat, pte: Pte): Memory
    requires IsTable(mem, n) && i < ENTRIES
  {
    mem[n := Table(mem[n].ptes[i := pte])]
  }

  /** The pages above the leaf tables do not change, so every path stays. */
  lemma {:induction false} DescendFrame(mem: Memory, mem': Memory, root: nat, nodes: Nodes, vpn: nat, level: nat)
    requires Tree(mem, root, nodes) && vpn < MAXVPN && level <= 2
    requires forall n :: n in nodes && nodes[n].level > 0 && n in mem ==> n in mem' && mem'[n] == mem[n]
    ensures Descend(mem', root, vpn, level) == Descend(mem, root, vpn, level)
    decreases 2 - level
  {
    if level < 2 {
      hide PosOf;
      hide Px;
      DescendFrame(mem, mem', root, nodes, vpn, level + 1);
      DescendPos(mem, root, nodes, vpn, level + 1);
      if Descend(mem, root, vpn, level + 1).Some? {
        TreeNode(mem, root, nodes, Descend(mem, root, vpn, level + 1).value);
      }
    }
  }

  lemma LeafWriteTree(mem: Memory, root: nat, nodes: Nodes, n: nat, i: nat, pte: Pte)
    requires Tree(mem, root, nodes) && n in nodes && nodes[n].level == 0 && i < ENTRIES
    ensures IsTable(mem, n) && Tree(SetEntry(mem, n, i, pte), root, nodes)
  {
    assert NodeOk(mem, root, nodes, n);
    var mem' := SetEntry(mem, n, i, pte);
    forall m | m in nodes
      ensures NodeOk(mem', root, nodes, m)
    {
      assert NodeOk(mem, root, nodes, m);
      if nodes[m].level > 0 {
        forall j | 0 <= j < ENTRIES && IsValid(mem'[m].ptes[j])
          ensures ChildOk(mem', nodes, m, j)
        {
          assert ChildOk(mem, nodes, m, j);
        }
      }
      if m != root {
        var p :| ParentOf(mem, nodes, p, m);
        assert ParentOf(mem', nodes, p, m);
      }
    }
  }

  /** Two page numbers below one leaf table have different entries there. */
  lemma SameLeafTable(v: nat, w: nat)
    requires PosOf(v, 0) == PosOf(w, 0) && v != w
    ensures Px(0, v) != Px(0, w)
  {
    PxBound(0, v);
    PxBound(0, w);
  }

  /** Writing the entry of one page number changes the map at that page number only. */
  lemma LeafWrite(mem: Memory, root: nat, nodes: Nodes, vpn: nat, pte: Pte, other: nat)
    requires Tree(mem, root, nodes) && vpn < MAXVPN && other < MAXVPN
    requires Descend(mem, root, vpn, 0).Some?
    ensures var n := Descend(mem, root, vpn, 0).value;
            && IsTable(mem, n) && Px(0, vpn) < ENTRIES
            && var mem' := SetEntry(mem, n, Px(0, vpn), pte);
            Entry(mem', root, other) == if other == vpn then pte else Entry(mem, root, other)
  {
    hide Tree;
    hide Descend;
    hide Px;
    hide PosOf;
    DescendPos(mem, root, nodes, vpn, 0);
    DescendPos(mem, root, nodes, other, 0);
    var n := Descend(mem, root, vpn, 0).value;
    TreeNode(mem, root, nodes, n);
    PxBound(0, vpn);
    PxBound(0, other);
    var mem' := SetEntry(mem, n, Px(0, vpn), pte);
    DescendFrame(mem, mem', root, nodes, other, 0);
    if other != vpn && Descend(mem, root, other, 0) == Some(n) {
      SameLeafTable(vpn, other);
    }
  }

  // ---------------------------------------------------------------- adding a table page

  /** Page c cleared and linked in at entry i of node n, as an allocating walk does. */
  function LinkNode(mem: Memory, n: nat, i: nat, c: nat): Memory
    requires IsTable(mem, n) && i < ENTRIES && c != n
  {
    mem[c := Table(seq(ENTRIES, j => ZERO))][n := Table(mem[n].ptes[i := Pointer(c)])]
  }

  ghost function AddPos(nodes: Nodes, n: nat, i: nat, c: nat): Nodes
    requires n in nodes && nodes[n].level > 0
  {
    nodes[c := Child(nodes[n], i)]
  }

  /** The place for the new page was empty: no node has its position. */
  lemma PosIsNew(mem: Memory, root: nat, nodes: Nodes, n: nat, i: nat, m: nat)
    requires Tree(mem, root, nodes) && n in nodes && nodes[n].level > 0 && i < ENTRIES && m in nodes
    requires IsTable(mem, n) && !IsValid(mem[n].ptes[i])
    ensures nodes[m] != Child(nodes[n], i)
  {
    assert NodeOk(mem, root, nodes, m) && NodeOk(mem, root, nodes, n);
    assert (nodes[n].prefix * ENTRIES + i) / ENTRIES == nodes[n].prefix
      && (nodes[n].prefix * ENTRIES + i) % ENTRIES == i;
    if m != root {
      var p :| ParentOf(mem, nodes, p, m);
    }
  }

  lemma NewParent(mem: Memory, nodes: Nodes, n: nat, i: nat, c: nat)
    requires n in nodes && nodes[n].level > 0 && i < ENTRIES && c !in nodes && IsTable(mem, n)
    ensures ParentOf(LinkNode(mem, n, i, c), AddPos(nodes, n, i, c), n, c)
  {
    ChildPrefix(nodes[n], i);
  }

  lemma LinkNewNode(mem: Memory, root: nat, nodes: Nodes, n: nat, i: nat, c: nat)
    requires Tree(mem, root, nodes) && n in nodes && nodes[n].level > 0 && i < ENTRIES && c !in nodes
    requires IsTable(mem, n) && !IsValid(mem[n].ptes[i]) && InBounds(Child(nodes[n], i))
    ensures NodeOk(LinkNode(mem, n, i, c), root, AddPos(nodes, n, i, c), c)
  {
    var mem', nodes' := LinkNode(mem, n, i, c), AddPos(nodes, n, i, c);
    hide Tree;
    NodeIn(mem, root, nodes, n);
    ChildPrefix(nodes[n], i);
    NewParent(mem, nodes, n, i, c);
    hide Child;
    hide ParentOf;
    hide ChildOk;
  }

  lemma ChildPrefix(p: Pos, i: nat)
    requires 0 < p.level && i < ENTRIES
    ensures Child(p, i).prefix / ENTRIES == p.prefix && Child(p, i).prefix % ENTRIES == i
            && Child(p, i).level == p.level - 1
  {
  }

  lemma LinkOldChild(mem: Memory, root: nat, nodes: Nodes, n: nat, i: nat, c: nat, m: nat, j: nat)
    requires n in nodes && nodes[n].level > 0 && i < ENTRIES && c !in nodes && m in nodes && nodes[m].level > 0
             && j < ENTRIES
    requires IsTable(mem, n) && IsTable(mem, m) && (IsValid(mem[m].ptes[j]) ==> ChildOk(mem, nodes, m, j))
    requires IsTable(LinkNode(mem, n, i, c), m) && IsValid(LinkNode(mem, n, i, c)[m].ptes[j])
    ensures ChildOk(LinkNode(mem, n, i, c), AddPos(nodes, n, i, c), m, j)
  {
  }

  lemma LinkOldParent(mem: Memory, nodes: Nodes, n: nat, i: nat, c: nat, m: nat, p: nat)
    requires n in nodes && nodes[n].level > 0 && i < ENTRIES && c !in nodes && m in nodes
    requires IsTable(mem, n) && !IsValid(mem[n].ptes[i]) && ParentOf(mem, nodes, p, m)
    ensures ParentOf(LinkNode(mem, n, i, c), AddPos(nodes, n, i, c), p, m)
  {
  }

  lemma LinkOldTable(mem: Memory, nodes: Nodes, n: nat, i: nat, c: nat, m: nat)
    requires n in nodes && nodes[n].level > 0 && i < ENTRIES && c !in nodes && m in nodes
    requires IsTable(mem, n) && IsTable(mem, m)
    ensures IsTable(LinkNode(mem, n, i, c), m)
    ensures m in AddPos(nodes, n, i, c) && AddPos(nodes, n, i, c)[m] == nodes[m]
  {
  }

  lemma LinkOldNode(mem: Memory, root: nat, nodes: Nodes, n: nat, i: nat, c: nat, m: nat)
    requires Tree(mem, root, nodes) && n in nodes && nodes[n].level > 0 && i < ENTRIES && c !in nodes
    requires IsTable(mem, n) && !IsValid(mem[n].ptes[i]) && m in nodes
    ensures NodeOk(LinkNode(mem, n, i, c), root, AddPos(nodes, n, i, c), m)
  {
    var mem', nodes' := LinkNode(mem, n, i, c), AddPos(nodes, n, i, c);
    hide InBounds;
    hide Tree;
    NodeIn(mem, root, nodes, m);
    LinkOldTable(mem, nodes, n, i, c, m);
    hide ChildOk;
    hide ParentOf;
    hide LinkNode;
    hide AddPos;
    forall j | nodes[m].level > 0 && 0 <= j < ENTRIES && IsValid(mem'[m].ptes[j])
      ensures ChildOk(mem', nodes', m, j)
    {
      LinkOldChild(mem, root, nodes, n, i, c, m, j);
    }
    if m != root {
      var p :| ParentOf(mem, nodes, p, m);
      LinkOldParent(mem, nodes, n, i, c, m, p);
    }
  }

  lemma LinkTree(mem: Memory, root: nat, nodes: Nodes, n: nat, i: nat, c: nat)
    requires Tree(mem, root, nodes) && n in nodes && nodes[n].level > 0 && i < ENTRIES && c !in nodes
    requires IsTable(mem, n) && !IsValid(mem[n].ptes[i]) && InBounds(Child(nodes[n], i))
    ensures Tree(LinkNode(mem, n, i, c), root, AddPos(nodes, n, i, c))
  {
    forall m | m in AddPos(nodes, n, i, c)
      ensures NodeOk(LinkNode(mem, n, i, c), root, AddPos(nodes, n, i, c), m)
    {
      if m == c {
        LinkNewNode(mem, root, nodes, n, i, c);
      } else {
        LinkOldNode(mem, root, nodes, n, i, c, m);
      }
    }
    forall m | m in nodes
      ensures nodes[m] != AddPos(nodes, n, i, c)[c]
    {
      PosIsNew(mem, root, nodes, n, i, m);
    }
  }

  /** Linking page c in at entry i of page n changes what that entry leads to, and nothing else. */
  lemma LinkFollow(mem: Memory, n: nat, i: nat, c: nat, x: nat, k: nat)
    requires IsTable(mem, n) && i < ENTRIES && c != n && !IsValid(mem[n].ptes[i]) && k < ENTRIES
    ensures x != c ==> Follow(LinkNode(mem, n, i, c), x, k) == if x == n && k == i then Some(c) else Follow(mem, x, k)
    ensures Follow(LinkNode(mem, n, i, c), c, k) == None
    ensures Follow(mem, n, i) == None
  {
  }

  /** A new, empty table page adds at most itself to the paths. */
  lemma {:induction false} LinkDescend(mem: Memory, root: nat, nodes: Nodes, n: nat, i: nat, c: nat, vpn: nat,
                                       level: nat)
    requires Tree(mem, root, nodes) && n in nodes && nodes[n].level > 0 && i < ENTRIES && c !in nodes
    requires IsTable(mem, n) && !IsValid(mem[n].ptes[i]) && vpn < MAXVPN && level <= 2
    ensures var d, d' := Descend(mem, root, vpn, level), Descend(LinkNode(mem, n, i, c), root, vpn, level);
            d' == d || (d == None && d' == Some(c) && nodes[n].level == level + 1)
    ensures level + 1 == nodes[n].level && Descend(mem, root, vpn, level + 1) == Some(n) && Px(level + 1, vpn) == i ==>
              Descend(LinkNode(mem, n, i, c), root, vpn, level) == Some(c)
    decreases 2 - level
  {
    if level < 2 {
      hide Tree;
      hide PosOf;
      hide Px;
      hide Span;
      LinkDescend(mem, root, nodes, n, i, c, vpn, level + 1);
      DescendPos(mem, root, nodes, vpn, level + 1);
      assert Px(level + 1, vpn) < ENTRIES by { PxBound(level + 1, vpn); }
      var d := Descend(mem, root, vpn, level + 1);
      if d.Some? {
        LinkFollow(mem, n, i, c, d.value, Px(level + 1, vpn));
      } else {
        LinkFollow(mem, n, i, c, n, Px(level + 1, vpn));
      }
      hide Follow;
      hide LinkNode;
    }
  }

  /** An allocating walk leaves the map as it was. */
  lemma LinkEntry(mem: Memory, root: nat, nodes: Nodes, n: nat, i: nat, c: nat, vpn: nat)
    requires Tree(mem, root, nodes) && n in nodes && nodes[n].level > 0 && i < ENTRIES && c !in nodes
    requires IsTable(mem, n) && !IsValid(mem[n].ptes[i]) && vpn < MAXVPN
    ensures Entry(LinkNode(mem, n, i, c), root, vpn) == Entry(mem, root, vpn)
  {
    hide Tree;
    hide Descend;
    hide PosOf;
    hide Px;
    LinkDescend(mem, root, nodes, n, i, c, vpn, 0);
    DescendPos(mem, root, nodes, vpn, 0);
    PxBound(0, vpn);
  }

  // ---------------------------------------------------------------- the map it stands for

  /** pt is the map from page numbers to valid entries that the table at root holds. */
  ghost predicate Reads(mem: Memory, root: nat, pt: map<nat, Pte>) {
    && (forall v :: v in pt ==> v < MAXVPN)
    && (forall v :: 0 <= v < MAXVPN ==> ReadsAt(mem, root, pt, v))
  }

  ghost predicate ReadsAt(mem: Memory, root: nat, pt: map<nat, Pte>, v: nat) {
    && (v in pt <==> IsValid(Entry(mem, root, v)))
    && (v in pt ==> pt[v] == Entry(mem, root, v))
  }

  lemma ReadsLink(mem: Memory, root: nat, nodes: Nodes, pt: map<nat, Pte>, n: nat, i: nat, c: nat)
    requires Tree(mem, root, nodes) && n in nodes && nodes[n].level > 0 && i < ENTRIES && c !in nodes
    requires IsTable(mem, n) && !IsValid(mem[n].ptes[i]) && Reads(mem, root, pt)
    ensures Reads(LinkNode(mem, n, i, c), root, pt)
  {
    forall v | 0 <= v < MAXVPN
      ensures ReadsAt(LinkNode(mem, n, i, c), root, pt, v)
    {
      assert ReadsAt(mem, root, pt, v);
      LinkEntry(mem, root, nodes, n, i, c, v);
    }
  }

  ghost function PutPte(pt: map<nat, Pte>, v: nat, pte: Pte): map<nat, Pte> {
    if IsValid(pte) then pt[v := pte] else pt - {v}
  }

  /** Writing one entry of a leaf table writes one place of the map. */
  lemma ReadsWrite(mem: Memory, root: nat, nodes: Nodes, pt: map<nat, Pte>, v: nat, pte: Pte)
    requires Tree(mem, root, nodes) && Reads(mem, root, pt) && v < MAXVPN
    requires Descend(mem, root, v, 0).Some?
    ensures var n := Descend(mem, root, v, 0).value;
            && n in nodes && IsTable(mem, n) && Px(0, v) < ENTRIES
            && Tree(SetEntry(mem, n, Px(0, v), pte), root, nodes)
            && Reads(SetEntry(mem, n, Px(0, v), pte), root, PutPte(pt, v, pte))
  {
    hide Tree;
    hide Entry;
    hide Descend;
    hide Px;
    var n := Descend(mem, root, v, 0).value;
    DescendPos(mem, root, nodes, v, 0);
    PxBound(0, v);
    LeafWriteTree(mem, root, nodes, n, Px(0, v), pte);
    forall w | 0 <= w < MAXVPN
      ensures ReadsAt(SetEntry(mem, n, Px(0, v), pte), root, PutPte(pt, v, pte), w)
    {
      assert ReadsAt(mem, root, pt, w);
      LeafWrite(mem, root, nodes, v, pte, w);
    }
  }

  /** Memory outside the table's own pages does not matter. */
  lemma TableFrame(mem: Memory, mem': Memory, root: nat, nodes: Nodes, pt: map<nat, Pte>)
    requires Tree(mem, root, nodes) && Reads(mem, root, pt)
    requires forall n :: n in nodes && n in mem ==> n in mem' && mem'[n] == mem[n]
    ensures Tree(mem', root, nodes) && Reads(mem', root, pt)
  {
    forall n | n in nodes
      ensures NodeOk(mem', root, nodes, n)
    {
      assert NodeOk(mem, root, nodes, n);
      forall i | nodes[n].level > 0 && 0 <= i < ENTRIES && IsValid(mem'[n].ptes[i])
        ensures ChildOk(mem', nodes, n, i)
      {
        assert ChildOk(mem, nodes, n, i);
      }
      if n != root {
        var p :| ParentOf(mem, nodes, p, n);
        assert ParentOf(mem', nodes, p, n);
      }
    }
    forall v | 0 <= v < MAXVPN
      ensures ReadsAt(mem', root, pt, v)
    {
      assert ReadsAt(mem, root, pt, v);
      DescendFrame(mem, mem', root, nodes, v, 0);
      DescendPos(mem, root, nodes, v, 0);
    }
  }

  // ---------------------------------------------------------------- cutting a subtree off

  /** Position q is at or below position p. */
  ghost predicate Below(q: Pos, p: Pos) {
    q.level <= p.level <= 2 && q.prefix / Span(p.level - q.level) == p.prefix
  }

  ghost function Under(nodes: Nodes, p: Pos): set<nat> {
    set m | m in nodes && Below(nodes[m], p)
  }

  lemma BelowChild(q: Pos, i: nat, p: Pos)
    requires 0 < q.level <= 2 && p.level <= 2 && i < ENTRIES
    ensures q.level <= p.level ==> (Below(Child(q, i), p) <==> Below(q, p))
    ensures q.level > p.level && Below(Child(q, i), p) ==> Child(q, i) == p
  {
    var x := q.prefix * ENTRIES + i;
    assert x / Span(1) == q.prefix;
    if p.level == 2 && q.level == 1 {
      assert x / Span(2) == q.prefix / Span(1);
    }
  }

  lemma BelowTrans(q: Pos, p: Pos, i: nat)
    requires 0 < p.level <= 2 && i < ENTRIES && Below(q, Child(p, i))
    ensures Below(q, p)
  {
    if p.level - q.level == 2 {
      assert q.prefix / Span(2) == q.prefix / Span(1) / ENTRIES;
    }
  }

  lemma ChildOnce(p: Pos, i: nat, q: Pos, j: nat)
    requires p.level > 0 && q.level > 0 && i < ENTRIES && j < ENTRIES && Child(p, i) == Child(q, j)
    ensures p == q && i == j
  {
  }

  /** A node's position is the child position of its parent's. */
  lemma ParentChild(mem: Memory, root: nat, nodes: Nodes, p: nat, m: nat)
    requires Tree(mem, root, nodes) && m in nodes && ParentOf(mem, nodes, p, m)
    ensures nodes[p].level > 0 && nodes[m] == Child(nodes[p], nodes[m].prefix % ENTRIES)
  {
  }

  lemma PruneNode(mem: Memory, mem': Memory, root: nat, nodes: Nodes, n: nat, i: nat, m: nat)
    requires Tree(mem, root, nodes) && n in nodes && nodes[n].level > 0 && i < ENTRIES
    requires IsTable(mem, n) && IsValid(mem[n].ptes[i]) && ChildOk(mem, nodes, n, i)
    requires n in mem' && mem'[n] == Table(mem[n].ptes[i := ZERO])
    requires m in nodes && m !in Under(nodes, Child(nodes[n], i))
    requires forall x :: x in nodes && x !in Under(nodes, Child(nodes[n], i)) && x != n && x in mem ==>
             x in mem' && mem'[x] == mem[x]
    ensures NodeOk(mem', root, nodes - Under(nodes, Child(nodes[n], i)), m)
  {
    var p := Child(nodes[n], i);
    var nodes' := nodes - Under(nodes, p);
    assert NodeOk(mem, root, nodes, m) && NodeOk(mem, root, nodes, n);
    forall j | nodes[m].level > 0 && 0 <= j < ENTRIES && IsValid(mem'[m].ptes[j])
      ensures ChildOk(mem', nodes', m, j)
    {
      assert ChildOk(mem, nodes, m, j);
      BelowChild(nodes[m], j, p);
      if Child(nodes[m], j) == p {
        ChildOnce(nodes[m], j, nodes[n], i);
        assert false;
      }
    }
    if m != root {
      var q :| ParentOf(mem, nodes, q, m);
      ParentChild(mem, root, nodes, q, m);
      var j := nodes[m].prefix % ENTRIES;
      BelowChild(nodes[q], j, p);
      assert NodeOk(mem, root, nodes, q);
      assert q !in Under(nodes, p);
      assert q == n ==> j != i by {
        assert ChildOk(mem, nodes, n, i);
      }
      assert ParentOf(mem', nodes', q, m);
    }
  }

  /** Clearing an entry of an upper level takes the subtree below it off the tree. */
  lemma PruneTree(mem: Memory, mem': Memory, root: nat, nodes: Nodes, n: nat, i: nat)
    requires Tree(mem, root, nodes) && n in nodes && nodes[n].level > 0 && i < ENTRIES
    requires IsTable(mem, n) && IsValid(mem[n].ptes[i]) && ChildOk(mem, nodes, n, i)
    requires n in mem' && mem'[n] == Table(mem[n].ptes[i := ZERO])
    requires forall x :: x in nodes && x !in Under(nodes, Child(nodes[n], i)) && x != n && x in mem ==>
             x in mem' && mem'[x] == mem[x]
    ensures n !in Under(nodes, Child(nodes[n], i))
    ensures Tree(mem', root, nodes - Under(nodes, Child(nodes[n], i)))
  {
    var nodes' := nodes - Under(nodes, Child(nodes[n], i));
    assert NodeOk(mem, root, nodes, n);
    forall m | m in nodes'
      ensures NodeOk(mem', root, nodes', m)
    {
      PruneNode(mem, mem', root, nodes, n, i, m);
    }
  }

  /** A page with other page table pages below it has a valid entry. */
  lemma HasChild(mem: Memory, root: nat, nodes: Nodes, n: nat, m: nat) returns (j: nat)
    requires Tree(mem, root, nodes) && n in nodes && m in Under(nodes, nodes[n]) && m != n
    ensures IsTable(mem, n) && j < ENTRIES && IsValid(mem[n].ptes[j])
  {
    assert NodeOk(mem, root, nodes, n) && NodeOk(mem, root, nodes, m);
    var p :| ParentOf(mem, nodes, p, m);
    ParentChild(mem, root, nodes, p, m);
    j := nodes[m].prefix % ENTRIES;
    BelowChild(nodes[p], j, nodes[n]);
    assert NodeOk(mem, root, nodes, p);
    if nodes[p].level < nodes[n].level {
      var q :| ParentOf(mem, nodes, q, p);
      ParentChild(mem, root, nodes, q, p);
      j := nodes[p].prefix % ENTRIES;
      BelowChild(nodes[q], j, nodes[n]);
    }
  }

  /** Every page table page is on the path to the page numbers at its position. */
  lemma {:induction false} DescendReaches(mem: Memory, root: nat, nodes: Nodes, m: nat, vpn: nat)
    requires Tree(mem, root, nodes) && m in nodes && nodes[m].level <= 2
    requires vpn < MAXVPN && nodes[m] == PosOf(vpn, nodes[m].level)
    ensures Descend(mem, root, vpn, nodes[m].level) == Some(m)
    decreases 2 - nodes[m].level
  {
    assert NodeOk(mem, root, nodes, m);
    if nodes[m].level == 2 {
      assert nodes[m] == nodes[root];
    } else {
      assert m != root;
      var p :| ParentOf(mem, nodes, p, m);
      PosStep(vpn, nodes[m].level + 1);
      ParentChild(mem, root, nodes, p, m);
      ChildOnce(nodes[p], nodes[m].prefix % ENTRIES, PosOf(vpn, nodes[m].level + 1), Px(nodes[m].level + 1, vpn));
      DescendReaches(mem, root, nodes, p, vpn);
    }
  }
}
