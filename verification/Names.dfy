/** Path names and directories of kernel/fs.c: skipelem(), namex(), dirlookup() and dirlink().
    A path is its characters without the final NUL; the directory tree is a map from inode
    numbers to nodes, and the references that callers hold form a multiset of inode numbers. */
module Names {
  import opened Options

  const DIRSIZ := 14

  function Cut(w: string): string { if |w| >= DIRSIZ then w[..DIRSIZ] else w }

  // ---------------------------------------------------------------- what a path means

  /** The path split at every '/'. */
  function Parts(s: string): (r: seq<string>)
    ensures |r| > 0
  {
    if s == "" then [""]
    else
      var rest := Parts(s[1..]);
      if s[0] == '/' then [""] + rest else [[s[0]] + rest[0]] + rest[1..]
  }

  function NonEmpty(ps: seq<string>): seq<string> {
    if ps == [] then [] else (if ps[0] == "" then [] else [Cut(ps[0])]) + NonEmpty(ps[1..])
  }

  /** The components of a path: the parts that are not empty, cut to DIRSIZ characters. */
  function Components(s: string): seq<string> { NonEmpty(Parts(s)) }

  // ---------------------------------------------------------------- skipelem()

  function SkipSlashes(p: string, i: nat): (r: nat)
    requires i <= |p|
    ensures i <= r <= |p| && (r < |p| ==> p[r] != '/') && forall j :: i <= j < r ==> p[j] == '/'
    decreases |p| - i
  {
    if i < |p| && p[i] == '/' then SkipSlashes(p, i + 1) else i
  }

  function ElemEnd(p: string, i: nat): (r: nat)
    requires i <= |p|
    ensures i <= r <= |p| && (r < |p| ==> p[r] == '/') && forall j :: i <= j < r ==> p[j] != '/'
    decreases |p| - i
  {
    if i < |p| && p[i] != '/' then ElemEnd(p, i + 1) else i
  }

  datatype Elem = Elem(name: string, pos: nat)

  /** skipelem(): the next element and where the one after it starts. */
  function SkipElem(p: string, i: nat): (r: Option<Elem>)
    requires i <= |p|
    ensures r.Some? ==> i < r.value.pos <= |p|
  {
    var s := SkipSlashes(p, i);
    if s == |p| then None
    else
      var e := ElemEnd(p, s);
      Some(Elem(Cut(p[s..e]), SkipSlashes(p, e)))
  }

  /** The elements that repeated calls of skipelem() give. */
  function Elements(p: string, i: nat): seq<string>
    requires i <= |p|
    decreases |p| - i
  {
    match SkipElem(p, i)
    case None => []
    case Some(e) => [e.name] + Elements(p, e.pos)
  }

  lemma {:induction false} SlashesVanish(p: string, i: nat)
    requires i <= |p|
    ensures Components(p[i..]) == Components(p[SkipSlashes(p, i)..])
    decreases |p| - i
  {
    if i < |p| && p[i] == '/' {
      SlashesVanish(p, i + 1);
      assert p[i..][1..] == p[i + 1..];
      assert ([""] + Parts(p[i + 1..]))[1..] == Parts(p[i + 1..]);
    }
  }

  lemma PartsAt(p: string, i: nat)
    requires i <= |p|
    ensures i == |p| ==> Parts(p[i..]) == [""]
    ensures i < |p| && p[i] == '/' ==> Parts(p[i..]) == [""] + Parts(p[i + 1..])
    ensures i < |p| && p[i] != '/' ==> Parts(p[i..]) == [[p[i]] + Parts(p[i + 1..])[0]] + Parts(p[i + 1..])[1..]
  {
    if i < |p| {
      assert p[i..][0] == p[i] && p[i..][1..] == p[i + 1..];
    }
  }

  /** A stretch without '/' is the first part. */
  lemma {:induction false} FirstPart(p: string, i: nat)
    requires i <= |p|
    ensures var e := ElemEnd(p, i);
            && Parts(p[i..])[0] == p[i..e]
            && Parts(p[i..])[1..] == if e < |p| then Parts(p[e + 1..]) else []
    decreases |p| - i
  {
    hide Parts;
    var e := ElemEnd(p, i);
    PartsAt(p, i);
    if i < |p| && p[i] != '/' {
      FirstPart(p, i + 1);
      assert p[i..e] == [p[i]] + p[i + 1..e];
    } else {
      assert p[i..e] == "";
    }
  }

  lemma NonEmptyFirst(ps: seq<string>)
    requires |ps| > 0
    ensures ps[0] == "" ==> NonEmpty(ps) == NonEmpty(ps[1..])
    ensures ps[0] != "" ==> NonEmpty(ps) == [Cut(ps[0])] + NonEmpty(ps[1..])
  {
  }

  lemma NoComponents()
    ensures Components("") == []
  {
    NonEmptyFirst([""]);
  }

  lemma NothingLeft()
    ensures NonEmpty([]) == []
  {
  }

  /** An element, and the components of what follows it. */
  lemma ElemFirst(p: string, s: nat)
    requires s < |p| && p[s] != '/'
    ensures var e := ElemEnd(p, s); s < e && Components(p[s..]) == [Cut(p[s..e])] + Components(p[e..])
  {
    hide NonEmpty;
    hide Cut;
    hide Parts;
    var e := ElemEnd(p, s);
    FirstPart(p, s);
    assert s < e;
    NonEmptyFirst(Parts(p[s..]));
    if e < |p| {
      SlashHead(p, e);
    } else {
      assert p[e..] == "";
      NoComponents();
      NothingLeft();
    }
  }

  lemma SlashHead(p: string, e: nat)
    requires e < |p| && p[e] == '/'
    ensures Components(p[e..]) == NonEmpty(Parts(p[e + 1..]))
  {
    PartsAt(p, e);
    hide Parts;
    NonEmptyFirst(Parts(p[e..]));
    assert Parts(p[e..])[1..] == Parts(p[e + 1..]);
  }

  /** skipelem() walks through the components of the path. */
  lemma {:induction false} ElementsAreComponents(p: string, i: nat)
    requires i <= |p|
    ensures Elements(p, i) == Components(p[i..])
    decreases |p| - i
  {
    var s := SkipSlashes(p, i);
    SlashesVanish(p, i);
    if s == |p| {
      assert p[s..] == "";
      NoComponents();
    } else {
      var e := ElemEnd(p, s);
      ElemFirst(p, s);
      SlashesVanish(p, e);
      ElementsAreComponents(p, SkipSlashes(p, e));
    }
  }

  /** skipelem(), with its loops. */
  method Skipelem(path: string, pos: nat) returns (r: Option<Elem>)
    requires pos <= |path|
    ensures r == SkipElem(path, pos)
  {
    var i := pos;
    while i < |path| && path[i] == '/'
      invariant pos <= i <= |path| && SkipSlashes(path, pos) == SkipSlashes(path, i)
    {
      i := i + 1;
    }
    if i == |path| {
      return None;
    }
    var s := i;
    while i < |path| && path[i] != '/'
      invariant s <= i <= |path| && ElemEnd(path, s) == ElemEnd(path, i)
    {
      i := i + 1;
    }
    var e := i;
    var name := if e - s >= DIRSIZ then path[s..s + DIRSIZ] else path[s..e];
    assert name == Cut(path[s..e]) by {
      if e - s >= DIRSIZ {
        assert path[s..e][..DIRSIZ] == path[s..s + DIRSIZ];
      }
    }
    while i < |path| && path[i] == '/'
      invariant e <= i <= |path| && SkipSlashes(path, e) == SkipSlashes(path, i)
    {
      i := i + 1;
    }
    return Some(Elem(name, i));
  }

  // ---------------------------------------------------------------- walking

  datatype Node = File | Dir(entries: map<string, nat>)

  /** Directory lookup folded over a list of names. */
  function Walk(nodes: map<nat, Node>, ip: nat, names: seq<string>): Option<nat>
    decreases |names|
  {
    if names == [] then Some(ip)
    else if ip in nodes && nodes[ip].Dir? && names[0] in nodes[ip].entries
    then Walk(nodes, nodes[ip].entries[names[0]], names[1..])
    else None
  }

  predicate IsDir(nodes: map<nat, Node>, ip: nat) { ip in nodes && nodes[ip].Dir? }

  /** What namei() and nameiparent() should find: the end of the walk, or the directory that
      holds the last name. */
  function Find(nodes: map<nat, Node>, start: nat, names: seq<string>, parent: bool): Option<nat> {
    if !parent then Walk(nodes, start, names)
    else if names == [] then None
    else
      match Walk(nodes, start, names[..|names| - 1])
      case None => None
      case Some(dp) => if IsDir(nodes, dp) then Some(dp) else None
  }

  lemma FindStep(nodes: map<nat, Node>, ip: nat, names: seq<string>, parent: bool)
    requires names != []
    ensures !IsDir(nodes, ip) ==> Find(nodes, ip, names, parent) == None
    ensures IsDir(nodes, ip) && parent && |names| == 1 ==> Find(nodes, ip, names, parent) == Some(ip)
    ensures IsDir(nodes, ip) && !(parent && |names| == 1) && names[0] !in nodes[ip].entries ==>
            Find(nodes, ip, names, parent) == None
    ensures IsDir(nodes, ip) && !(parent && |names| == 1) && names[0] in nodes[ip].entries ==>
              Find(nodes, ip, names, parent) == Find(nodes, nodes[ip].entries[names[0]], names[1..], parent)
  {
    var front := names[..|names| - 1];
    if |names| > 1 {
      assert front[0] == names[0] && front[1..] == names[1..][..|names| - 2];
    }
  }

  class Tree {
    const nodes: map<nat, Node>
    var refs: multiset<nat> // the references held, counted per inode

    /** iget() and idup(). */
    method Get(ip: nat)
      modifies this
      ensures refs == old(refs) + multiset{ip}
    {
      refs := refs + multiset{ip};
    }

    /** iput(). */
    method Put(ip: nat)
      requires ip in refs
      modifies this
      ensures refs == old(refs) - multiset{ip}
    {
      refs := refs - multiset{ip};
    }

    /** iput() at the end of a failed walk. */
    method Drop(ip: nat, ghost others: multiset<nat>)
      requires refs == others + multiset{ip}
      modifies this
      ensures refs == others + multiset{}
    {
      Put(ip);
    }

    /** dirlookup() gives a reference to the next inode, and the one to ip is given up. */
    method Swap(ip: nat, next: nat, ghost others: multiset<nat>)
      requires refs == others + multiset{ip}
      modifies this
      ensures refs == others + multiset{next}
    {
      Get(next);
      Put(ip);
    }

    /** namex(): finds what the path means, with one reference to it, and none on failure. */
    method Namex(path: string, parent: bool, cwd: nat, root: nat) returns (r: Option<nat>, name: string)
      modifies this
      ensures var start := if |path| > 0 && path[0] == '/' then root else cwd;
              r == Find(nodes, start, Components(path), parent)
      ensures refs == old(refs) + if r.Some? then multiset{r.value} else multiset{}
      ensures r.Some? && parent ==> Components(path) != [] && name == Components(path)[|Components(path)| - 1]
    {
      hide Find;
      hide Components;
      hide Elements;
      hide SkipElem;
      name := "";
      var ip: nat := if |path| > 0 && path[0] == '/' then root else cwd;
      Get(ip);
      ghost var start, all := ip, Components(path);
      ElementsAreComponents(path, 0);
      assert path[0..] == path;
      var pos := 0;
      var e := Skipelem(path, pos);
      while e.Some?
        invariant pos <= |path| && e == SkipElem(path, pos)
        invariant refs == old(refs) + multiset{ip}
        invariant Find(nodes, start, all, parent) == Find(nodes, ip, Elements(path, pos), parent)
        invariant SameLast(Elements(path, pos), all)
        decreases |path| - pos
      {
        ElementsStep(path, pos);
        FindStep(nodes, ip, Elements(path, pos), parent);
        name, pos := e.value.name, e.value.pos;
        e := Skipelem(path, pos);
        if !IsDir(nodes, ip) {
          Drop(ip, old(refs));
          return None, name;
        }
        if parent && pos == |path| {
          return Some(ip), name;
        }
        if name !in nodes[ip].entries {
          Drop(ip, old(refs));
          return None, name;
        }
        var next := nodes[ip].entries[name];
        Swap(ip, next, old(refs));
        ip := next;
      }
      ElementsEnd(path, pos);
      FindEnd(nodes, ip, parent);
      if parent {
        Drop(ip, old(refs));
        return None, name;
      }
      return Some(ip), name;
    }
  }

  /** One element taken off; the rest of the path is empty exactly when it was the last. */
  lemma ElementsStep(path: string, pos: nat)
    requires pos <= |path| && SkipElem(path, pos).Some?
    ensures var e, names := SkipElem(path, pos).value, Elements(path, pos);
            && names != [] && names[0] == e.name && names[1..] == Elements(path, e.pos)
            && (e.pos == |path| <==> |names| == 1)
            && (|names| > 1 ==> names[|names| - 1] == Elements(path, e.pos)[|names| - 2])
  {
    LastElem(path, SkipElem(path, pos).value.pos);
  }

  lemma ElementsEnd(path: string, pos: nat)
    requires pos <= |path| && SkipElem(path, pos) == None
    ensures Elements(path, pos) == []
  {
  }

  lemma FindEnd(nodes: map<nat, Node>, ip: nat, parent: bool)
    ensures Find(nodes, ip, [], parent) == if parent then None else Some(ip)
  {
  }

  /** The rest of the path is empty exactly when no element is left, once slashes are skipped. */
  lemma LastElem(path: string, pos: nat)
    requires pos <= |path| && (pos < |path| ==> path[pos] != '/')
    ensures pos == |path| <==> Elements(path, pos) == []
  {
  }

  ghost predicate SameLast(a: seq<string>, b: seq<string>) { a != [] ==> b != [] && a[|a| - 1] == b[|b| - 1] }

  // ---------------------------------------------------------------- directories

  /** A directory entry; inode number 0 marks a free one. */
  datatype Dirent = Dirent(inum: nat, name: string)

  /** The directory as a map: the first entry in use with a name counts. */
  function Entries(es: seq<Dirent>): map<string, nat> {
    if es == [] then map[]
    else
      var rest := Entries(es[1..]);
      if es[0].inum == 0 then rest else rest[es[0].name := es[0].inum]
  }

  /** The first entry in use with the name. */
  ghost predicate FoundAt(es: seq<Dirent>, name: string, i: nat) {
    && i < |es| && es[i].inum != 0 && es[i].name == name
    && forall j :: 0 <= j < i ==> es[j].inum == 0 || es[j].name != name
  }

  lemma {:induction false} EntriesFound(es: seq<Dirent>, name: string, i: nat)
    requires FoundAt(es, name, i)
    ensures name in Entries(es) && Entries(es)[name] == es[i].inum
    decreases i
  {
    if i > 0 {
      EntriesFound(es[1..], name, i - 1);
    }
  }

  lemma {:induction false} EntriesMissing(es: seq<Dirent>, name: string)
    requires forall j :: 0 <= j < |es| ==> es[j].inum == 0 || es[j].name != name
    ensures name !in Entries(es)
    decreases |es|
  {
    if es != [] {
      EntriesMissing(es[1..], name);
    }
  }

  /** Place k is the first free one, or the end of a directory that has none. */
  ghost predicate FreeAt(es: seq<Dirent>, k: nat) {
    k <= |es| && (k < |es| ==> es[k].inum == 0) && forall j :: 0 <= j < k ==> es[j].inum != 0
  }

  function PutAt(es: seq<Dirent>, k: nat, d: Dirent): seq<Dirent>
    requires k <= |es|
  {
    if k < |es| then es[k := d] else es + [d]
  }

  /** A new entry in a free place, or at the end, adds one name to the map. */
  lemma {:induction false} EntriesPut(es: seq<Dirent>, i: nat, d: Dirent)
    requires i <= |es| && (i < |es| ==> es[i].inum == 0) && d.inum != 0 && d.name !in Entries(es)
    ensures Entries(PutAt(es, i, d)) == Entries(es)[d.name := d.inum]
    decreases i
  {
    if i == 0 {
      if es == [] {
        assert (es + [d])[1..] == [];
      } else {
        assert es[0 := d][1..] == es[1..];
      }
    } else {
      EntriesPut(es[1..], i - 1, d);
      if i < |es| {
        assert es[i := d][1..] == es[1..][i - 1 := d];
      } else {
        assert (es + [d])[1..] == es[1..] + [d];
      }
    }
  }

  class Directory {
    var es: seq<Dirent>

    /** dirlookup(): the entry's place and inode number, as the map says.  Names are compared,
        like namecmp() does, by their first DIRSIZ characters. */
    method Lookup(full: string) returns (r: Option<nat>, off: nat)
      ensures var name := Cut(full); r == if name in Entries(es) then Some(Entries(es)[name]) else None
      ensures r.Some? ==> FoundAt(es, Cut(full), off)
    {
      var name := Cut(full);
      off := 0;
      while off < |es|
        invariant off <= |es| && forall j :: 0 <= j < off ==> es[j].inum == 0 || es[j].name != name
      {
        if es[off].inum != 0 && es[off].name == name {
          EntriesFound(es, name, off);
          return Some(es[off].inum), off;
        }
        off := off + 1;
      }
      EntriesMissing(es, name);
      r := None;
    }

    /** dirlink(): refuses a name that is there, and otherwise adds the name, cut to DIRSIZ. */
    method Link(full: string, inum: nat) returns (r: int)
      requires 0 < inum < 0x1_0000
      modifies this
      ensures r == -1 <==> Cut(full) in Entries(old(es))
      ensures r == -1 ==> es == old(es)
      ensures r != -1 ==> r == 0 && Entries(es) == Entries(old(es))[Cut(full) := inum]
      ensures r != -1 ==> exists k :: FreeAt(old(es), k) && es == PutAt(old(es), k, Dirent(inum, Cut(full)))
    {
      var name := Cut(full);
      var there, _ := Lookup(full);
      if there.Some? {
        return -1;
      }
      var off := 0;
      while off < |es|
        invariant off <= |es| && forall j :: 0 <= j < off ==> es[j].inum != 0
      {
        if es[off].inum == 0 {
          break;
        }
        off := off + 1;
      }
      EntriesPut(es, off, Dirent(inum, name));
      assert FreeAt(es, off);
      es := if off < |es| then es[off := Dirent(inum, name)] else es + [Dirent(inum, name)];
      r := 0;
    }
  }
}
