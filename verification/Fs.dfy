/** The disk structures of kernel/fs.c as values: inodes with direct and indirect block
    numbers, the free bitmap, who owns which block, and the bytes a file holds.  The block
    contents are those of the flat store that the buffer cache and the log provide. */
module Fs {
  import opened Blocks

  const NDIRECT := 12
  const MAXFILE := 268 // NDIRECT + NINDIRECT
  const SLOTS := 269   // NDIRECT direct slots, the indirect block's own, and its entries

  /** The superblock; the first nmeta blocks are boot block, superblock, log, inodes and bitmap. */
  datatype Super = Super(size: nat, nmeta: nat, bmapstart: nat, inodestart: nat) {
    predicate Ok() { 0 < nmeta <= size <= 0x1_0000_0000 }
  }

  datatype Inode = Inode(size: nat, addrs: seq<nat>)

  /** Blocks, inodes and one bit per block, set if the block is in use. */
  datatype Vol = Vol(bl: seq<Block>, inos: seq<Inode>, bits: seq<bool>)

  /** A place that can hold a block number: slot k of an inode. */
  datatype Loc = Loc(ino: nat, k: nat)

  type Owner = map<nat, Loc>

  predicate Shape(sb: Super, v: Vol) {
    && sb.Ok() && |v.bl| == sb.size && |v.bits| == sb.size
    && forall i :: 0 <= i < |v.inos| ==> |v.inos[i].addrs| == NDIRECT + 1
  }

  /** The block number in slot k, or 0. */
  function Slot(bl: seq<Block>, ip: Inode, k: nat): nat
    requires |ip.addrs| == NDIRECT + 1 && k < SLOTS
  {
    if k <= NDIRECT then ip.addrs[k]
    else if 0 < ip.addrs[NDIRECT] < |bl| then GetWord(bl[ip.addrs[NDIRECT]], k - NDIRECT - 1)
    else 0
  }

  /** The slot of the bn-th block of a file. */
  function SlotOf(bn: nat): nat { if bn < NDIRECT then bn else bn + 1 }

  // ---------------------------------------------------------------- ownership

  ghost predicate SlotOk(v: Vol, owner: Owner, i: nat, k: nat)
    requires i < |v.inos| && |v.inos[i].addrs| == NDIRECT + 1 && k < SLOTS
  {
    var b := Slot(v.bl, v.inos[i], k);
    b != 0 ==> b in owner && owner[b] == Loc(i, k)
  }

  ghost predicate InodeOk(v: Vol, owner: Owner, i: nat)
    requires i < |v.inos| && |v.inos[i].addrs| == NDIRECT + 1
  {
    forall k :: 0 <= k < SLOTS ==> SlotOk(v, owner, i, k)
  }

  ghost predicate OwnerOk(sb: Super, v: Vol, owner: Owner, skip: set<nat>, b: nat)
    requires Shape(sb, v) && b in owner
  {
    && sb.nmeta <= b < sb.size && owner[b].ino < |v.inos| && owner[b].ino !in skip && owner[b].k < SLOTS
    && Slot(v.bl, v.inos[owner[b].ino], owner[b].k) == b
  }

  ghost predicate BitOk(sb: Super, v: Vol, owner: Owner, loose: set<nat>, b: nat)
    requires Shape(sb, v) && b < sb.size
  {
    v.bits[b] <==> b < sb.nmeta || b in owner || b in loose
  }

  /** The bitmap marks exactly the metadata blocks, the blocks in some slot, each in one
      slot of one inode, and the loose blocks: allocated and not yet in a slot, or taken out
      of one and not yet freed.  The inodes in skip are being taken apart. */
  ghost predicate Owned(sb: Super, v: Vol, owner: Owner, loose: set<nat>, skip: set<nat>) {
    && Shape(sb, v)
    && (forall i :: 0 <= i < |v.inos| && i !in skip ==> InodeOk(v, owner, i))
    && (forall b :: b in owner ==> OwnerOk(sb, v, owner, skip, b))
    && (forall b :: 0 <= b < sb.size ==> BitOk(sb, v, owner, loose, b))
    && owner.Keys !! loose && (forall b :: b in loose ==> sb.nmeta <= b < sb.size)
  }

  /** balloc(): a free block is nobody's, and marking and clearing it makes it loose. */
  lemma AllocOwned(sb: Super, v: Vol, owner: Owner, loose: set<nat>, skip: set<nat>, b: nat)
    requires Owned(sb, v, owner, loose, skip) && b < sb.size && !v.bits[b]
    ensures sb.nmeta <= b && b !in owner && b !in loose
    ensures Owned(sb, Vol(v.bl[b := ZeroBlock()], v.inos, v.bits[b := true]), owner, loose + {b}, skip)
  {
    assert BitOk(sb, v, owner, loose, b);
    var v' := Vol(v.bl[b := ZeroBlock()], v.inos, v.bits[b := true]);
    forall i | 0 <= i < |v.inos| && i !in skip
      ensures InodeOk(v', owner, i)
    {
      assert InodeOk(v, owner, i) && SlotOk(v, owner, i, NDIRECT);
      forall k | 0 <= k < SLOTS
        ensures SlotOk(v', owner, i, k)
      {
        assert SlotOk(v, owner, i, k);
      }
    }
    forall x | x in owner
      ensures OwnerOk(sb, v', owner, skip, x)
    {
      assert OwnerOk(sb, v, owner, skip, x) && InodeOk(v, owner, owner[x].ino)
        && SlotOk(v, owner, owner[x].ino, NDIRECT);
    }
    forall x | 0 <= x < sb.size
      ensures BitOk(sb, v', owner, loose + {b}, x)
    {
      assert BitOk(sb, v, owner, loose, x);
    }
  }

  /** bfree(): a loose block is in use, and can be marked free. */
  lemma FreeOwned(sb: Super, v: Vol, owner: Owner, loose: set<nat>, skip: set<nat>, b: nat)
    requires Owned(sb, v, owner, loose, skip) && b in loose
    ensures b < sb.size && v.bits[b]
    ensures Owned(sb, v.(bits := v.bits[b := false]), owner, loose - {b}, skip)
  {
    assert BitOk(sb, v, owner, loose, b);
    var v' := v.(bits := v.bits[b := false]);
    forall i | 0 <= i < |v.inos| && i !in skip
      ensures InodeOk(v', owner, i)
    {
      assert InodeOk(v, owner, i);
      forall k | 0 <= k < SLOTS
        ensures SlotOk(v', owner, i, k)
      {
        assert SlotOk(v, owner, i, k);
      }
    }
    forall x | x in owner
      ensures OwnerOk(sb, v', owner, skip, x)
    {
      assert OwnerOk(sb, v, owner, skip, x);
    }
    forall x | 0 <= x < sb.size
      ensures BitOk(sb, v', owner, loose - {b}, x)
    {
      assert BitOk(sb, v, owner, loose, x);
    }
  }

  /** The volume after loose block b has been put into slot k of inode i. */
  function Attach(v: Vol, i: nat, k: nat, b: nat): Vol
    requires i < |v.inos| && |v.inos[i].addrs| == NDIRECT + 1 && k < SLOTS && b < 0x1_0000_0000
    requires k > NDIRECT ==> 0 < v.inos[i].addrs[NDIRECT] < |v.bl|
  {
    var ip := v.inos[i];
    if k <= NDIRECT then v.(inos := v.inos[i := ip.(addrs := ip.addrs[k := b])])
    else
      var d := ip.addrs[NDIRECT];
      v.(bl := v.bl[d := SetWord(v.bl[d], k - NDIRECT - 1, b)])
  }

  /** Filling an empty slot changes that slot only; a new indirect block has to be clear. */
  lemma AttachSlot(sb: Super, v: Vol, owner: Owner, loose: set<nat>, i: nat, k: nat, b: nat, j: nat, l: nat)
    requires Owned(sb, v, owner, loose, {}) && b in loose && i < |v.inos| && k < SLOTS && j < |v.inos| && l < SLOTS
    requires Slot(v.bl, v.inos[i], k) == 0 && (k > NDIRECT ==> v.inos[i].addrs[NDIRECT] != 0)
    requires k == NDIRECT ==> b < |v.bl| && v.bl[b] == ZeroBlock()
    ensures v.inos[i].addrs[NDIRECT] < |v.bl| && Shape(sb, Attach(v, i, k, b))
    ensures var v' := Attach(v, i, k, b);
            Slot(v'.bl, v'.inos[j], l) == if j == i && l == k then b else Slot(v.bl, v.inos[j], l)
  {
    assert InodeOk(v, owner, i) && SlotOk(v, owner, i, NDIRECT) && InodeOk(v, owner, j) && SlotOk(v, owner, j, NDIRECT);
    assert Shape(sb, v);
    var d := v.inos[i].addrs[NDIRECT];
    if d != 0 {
      assert OwnerOk(sb, v, owner, {}, d);
    }
    var e := v.inos[j].addrs[NDIRECT];
    if e != 0 {
      assert OwnerOk(sb, v, owner, {}, e);
    }
    assert b !in owner;
    hide Owned;
    if k == NDIRECT && l > NDIRECT {
      ZeroBlockWords(l - NDIRECT - 1);
    } else if k > NDIRECT && l > NDIRECT {
      GetSetWord(v.bl[d], k - NDIRECT - 1, b, l - NDIRECT - 1);
    }
  }

  lemma AttachOwned(sb: Super, v: Vol, owner: Owner, loose: set<nat>, i: nat, k: nat, b: nat)
    requires Owned(sb, v, owner, loose, {}) && b in loose && i < |v.inos| && k < SLOTS
    requires Slot(v.bl, v.inos[i], k) == 0 && (k > NDIRECT ==> v.inos[i].addrs[NDIRECT] != 0)
    requires k == NDIRECT ==> b < |v.bl| && v.bl[b] == ZeroBlock()
    ensures v.inos[i].addrs[NDIRECT] < |v.bl|
    ensures Owned(sb, Attach(v, i, k, b), owner[b := Loc(i, k)], loose - {b}, {})
  {
    AttachSlot(sb, v, owner, loose, i, k, b, i, 0);
    var v', owner' := Attach(v, i, k, b), owner[b := Loc(i, k)];
    forall j | 0 <= j < |v.inos|
      ensures InodeOk(v', owner', j)
    {
      assert InodeOk(v, owner, j);
      forall l | 0 <= l < SLOTS
        ensures SlotOk(v', owner', j, l)
      {
        AttachSlot(sb, v, owner, loose, i, k, b, j, l);
        assert SlotOk(v, owner, j, l);
      }
    }
    forall x | x in owner'
      ensures OwnerOk(sb, v', owner', {}, x)
    {
      if x == b {
        AttachSlot(sb, v, owner, loose, i, k, b, i, k);
      } else {
        assert OwnerOk(sb, v, owner, {}, x);
        AttachSlot(sb, v, owner, loose, i, k, b, owner[x].ino, owner[x].k);
      }
    }
    forall x | 0 <= x < sb.size
      ensures BitOk(sb, v', owner', loose - {b}, x)
    {
      assert BitOk(sb, v, owner, loose, x);
    }
  }

  /** Writing a block that holds file data, not block numbers, moves no block. */
  lemma WriteOwned(sb: Super, v: Vol, owner: Owner, loose: set<nat>, b: nat, blk: Block)
    requires Owned(sb, v, owner, loose, {}) && b in owner && owner[b].k != NDIRECT
    ensures b < |v.bl| && Owned(sb, v.(bl := v.bl[b := blk]), owner, loose, {})
    ensures forall i :: 0 <= i < |v.inos| ==> v.inos[i].addrs[NDIRECT] != b
  {
    assert OwnerOk(sb, v, owner, {}, b);
    var v' := v.(bl := v.bl[b := blk]);
    forall i | 0 <= i < |v.inos|
      ensures InodeOk(v', owner, i) && v.inos[i].addrs[NDIRECT] != b
    {
      assert InodeOk(v, owner, i) && SlotOk(v, owner, i, NDIRECT);
      forall k | 0 <= k < SLOTS
        ensures SlotOk(v', owner, i, k)
      {
        assert SlotOk(v, owner, i, k);
      }
    }
    forall x | x in owner
      ensures OwnerOk(sb, v', owner, {}, x)
    {
      assert OwnerOk(sb, v, owner, {}, x);
    }
    forall x | 0 <= x < sb.size
      ensures BitOk(sb, v', owner, loose, x)
    {
      assert BitOk(sb, v, owner, loose, x);
    }
  }

  /** The blocks of inode i in slots from p to the indirect block's own, or from entry q on. */
  ghost function Left(owner: Owner, i: nat, p: nat, q: nat): set<nat> {
    set b | b in owner && owner[b].ino == i && (p <= owner[b].k <= NDIRECT || owner[b].k >= NDIRECT + 1 + q)
  }

  /** The blocks of the other inodes. */
  ghost function Others(owner: Owner, i: nat): Owner {
    map b | b in owner && owner[b].ino != i :: owner[b]
  }

  /** Taking inode i apart makes all its blocks loose. */
  lemma DetachOwned(sb: Super, v: Vol, owner: Owner, i: nat)
    requires Owned(sb, v, owner, {}, {}) && i < |v.inos|
    ensures Owned(sb, v, Others(owner, i), Left(owner, i, 0, 0), {i})
  {
    var owner' := Others(owner, i);
    forall j | 0 <= j < |v.inos| && j !in {i}
      ensures InodeOk(v, owner', j)
    {
      assert InodeOk(v, owner, j);
      forall k | 0 <= k < SLOTS
        ensures SlotOk(v, owner', j, k)
      {
        assert SlotOk(v, owner, j, k);
      }
    }
    forall b | b in owner'
      ensures OwnerOk(sb, v, owner', {i}, b)
    {
      assert OwnerOk(sb, v, owner, {}, b);
    }
    forall b | 0 <= b < sb.size
      ensures BitOk(sb, v, owner', Left(owner, i, 0, 0), b)
    {
      assert BitOk(sb, v, owner, {}, b);
    }
    forall b | b in Left(owner, i, 0, 0)
      ensures sb.nmeta <= b < sb.size
    {
      assert OwnerOk(sb, v, owner, {}, b);
    }
  }

  /** An inode that is being taken apart can hold anything. */
  lemma ApartOwned(sb: Super, v: Vol, owner: Owner, loose: set<nat>, i: nat, ip: Inode)
    requires Owned(sb, v, owner, loose, {i}) && i < |v.inos| && |ip.addrs| == NDIRECT + 1
    ensures Owned(sb, v.(inos := v.inos[i := ip]), owner, loose, {i})
  {
    var v' := v.(inos := v.inos[i := ip]);
    forall j | 0 <= j < |v.inos| && j !in {i}
      ensures InodeOk(v', owner, j)
    {
      assert InodeOk(v, owner, j);
      forall k | 0 <= k < SLOTS
        ensures SlotOk(v', owner, j, k)
      {
        assert SlotOk(v, owner, j, k);
      }
    }
    forall b | b in owner
      ensures OwnerOk(sb, v', owner, {i}, b)
    {
      assert OwnerOk(sb, v, owner, {i}, b);
    }
    forall b | 0 <= b < sb.size
      ensures BitOk(sb, v', owner, loose, b)
    {
      assert BitOk(sb, v, owner, loose, b);
    }
  }

  /** An empty inode is in one piece again. */
  lemma EmptyOwned(sb: Super, v: Vol, owner: Owner, loose: set<nat>, i: nat)
    requires Owned(sb, v, owner, loose, {i}) && i < |v.inos|
    requires forall k :: 0 <= k <= NDIRECT ==> v.inos[i].addrs[k] == 0
    ensures Owned(sb, v, owner, loose, {})
  {
    forall j | 0 <= j < |v.inos| && j !in {}
      ensures InodeOk(v, owner, j)
    {
      if j == i {
        forall k | 0 <= k < SLOTS
          ensures SlotOk(v, owner, i, k)
        {
        }
      }
    }
    forall b | b in owner
      ensures OwnerOk(sb, v, owner, {}, b)
    {
      assert OwnerOk(sb, v, owner, {i}, b);
    }
  }

  /** The block of a slot that is still to be freed is loose; an empty slot has none. */
  lemma LeftStep(sb: Super, v: Vol, owner: Owner, i: nat, p: nat, q: nat)
    requires Owned(sb, v, owner, {}, {}) && i < |v.inos| && p <= NDIRECT + 1 && q <= WORDS
    ensures p <= NDIRECT && v.inos[i].addrs[p] != 0 ==> v.inos[i].addrs[p] in Left(owner, i, p, q)
    ensures p <= NDIRECT ==> Left(owner, i, p + 1, q) == Left(owner, i, p, q) - {v.inos[i].addrs[p]}
    ensures q < WORDS && Slot(v.bl, v.inos[i], NDIRECT + 1 + q) != 0 ==>
              Slot(v.bl, v.inos[i], NDIRECT + 1 + q) in Left(owner, i, p, q)
    ensures q < WORDS ==> Left(owner, i, p, q + 1) == Left(owner, i, p, q) - {Slot(v.bl, v.inos[i], NDIRECT + 1 + q)}
  {
    assert InodeOk(v, owner, i);
    forall b | b in owner
      ensures b != 0 && owner[b].k < SLOTS && (owner[b].ino == i ==> Slot(v.bl, v.inos[i], owner[b].k) == b)
    {
      assert OwnerOk(sb, v, owner, {}, b);
    }
    if p <= NDIRECT {
      assert SlotOk(v, owner, i, p);
    }
    if q < WORDS {
      assert SlotOk(v, owner, i, NDIRECT + 1 + q);
    }
  }

  /** Without an indirect block there are no entries to free. */
  lemma LeftNone(sb: Super, v: Vol, owner: Owner, i: nat)
    requires Owned(sb, v, owner, {}, {}) && i < |v.inos|
    ensures v.inos[i].addrs[NDIRECT] == 0 ==> Left(owner, i, NDIRECT, 0) == {}
    ensures Left(owner, i, NDIRECT + 1, WORDS) == {}
  {
    forall b | b in owner
      ensures b != 0 && owner[b].k < SLOTS && (owner[b].ino == i ==> Slot(v.bl, v.inos[i], owner[b].k) == b)
    {
      assert OwnerOk(sb, v, owner, {}, b);
    }
  }

  // ---------------------------------------------------------------- file contents

  /** The block number of the bn-th block of file i, or 0. */
  function BlockNo(v: Vol, i: nat, bn: nat): nat
    requires i < |v.inos| && |v.inos[i].addrs| == NDIRECT + 1 && bn < MAXFILE
  {
    Slot(v.bl, v.inos[i], SlotOf(bn))
  }

  /** The layout of an inode on disk: the first twelve blocks of a file are named in the inode itself,
      the others, in order, by the words of the block that its last address names. */
  lemma InodeLayout(v: Vol, i: nat, bn: nat)
    requires i < |v.inos| && |v.inos[i].addrs| == 13 && bn < 268
    ensures bn < 12 ==> BlockNo(v, i, bn) == v.inos[i].addrs[bn]
    ensures bn >= 12 && 0 < v.inos[i].addrs[12] < |v.bl| ==>
              BlockNo(v, i, bn) == GetWord(v.bl[v.inos[i].addrs[12]], bn - 12)
    ensures bn >= 12 && v.inos[i].addrs[12] == 0 ==> BlockNo(v, i, bn) == 0
  {
  }

  /** The block of a file that offset o is in, and the place in the block. */
  function Bn(o: nat): nat { o / BSIZE }
  function Bo(o: nat): nat { o % BSIZE }

  /** The byte at offset o of file i; holes read as zero. */
  function FileByte(v: Vol, i: nat, o: nat): Byte
    requires i < |v.inos| && |v.inos[i].addrs| == NDIRECT + 1
  {
    if o / BSIZE < MAXFILE && 0 < BlockNo(v, i, o / BSIZE) < |v.bl|
    then v.bl[BlockNo(v, i, o / BSIZE)][o % BSIZE]
    else 0
  }

  /** The bytes of file i. */
  function Content(v: Vol, i: nat): (r: seq<Byte>)
    requires i < |v.inos| && |v.inos[i].addrs| == NDIRECT + 1
    ensures |r| == v.inos[i].size
  {
    seq(v.inos[i].size, o requires 0 <= o => FileByte(v, i, o))
  }

  /** Every block below the size is there. */
  ghost predicate NoHoles(v: Vol, i: nat)
    requires i < |v.inos| && |v.inos[i].addrs| == NDIRECT + 1
  {
    v.inos[i].size <= MAXFILE * BSIZE && Backed(v, i, v.inos[i].size)
  }

  /** The first n bytes of the file have blocks. */
  ghost predicate Backed(v: Vol, i: nat, n: nat)
    requires i < |v.inos| && |v.inos[i].addrs| == NDIRECT + 1
  {
    forall bn :: 0 <= bn < MAXFILE && bn * BSIZE < n ==> BlockNo(v, i, bn) != 0
  }

  /** Slots in use stay as they are, and no file changes size. */
  ghost predicate Grown(v: Vol, v': Vol) {
    |v'.inos| == |v.inos| && forall i :: 0 <= i < |v.inos| ==> GrownFile(v, v', i)
  }

  ghost predicate GrownFile(v: Vol, v': Vol, i: nat)
    requires i < |v.inos| && i < |v'.inos|
  {
    && |v.inos[i].addrs| == NDIRECT + 1 && |v'.inos[i].addrs| == NDIRECT + 1 && v'.inos[i].size == v.inos[i].size
    && forall k :: 0 <= k < SLOTS && Slot(v.bl, v.inos[i], k) != 0 ==>
                     Slot(v'.bl, v'.inos[i], k) == Slot(v.bl, v.inos[i], k)
  }

  lemma GrownTwice(v: Vol, v1: Vol, v2: Vol)
    requires Grown(v, v1) && Grown(v1, v2)
    ensures Grown(v, v2)
  {
    forall i | 0 <= i < |v.inos|
      ensures GrownFile(v, v2, i)
    {
      assert GrownFile(v, v1, i) && GrownFile(v1, v2, i);
    }
  }

  lemma SameTwice(v: Vol, v1: Vol, v2: Vol)
    requires SameBytes(v, v1) && SameBytes(v1, v2)
    ensures SameBytes(v, v2)
  {
    forall i | 0 <= i < |v.inos|
      ensures SameFile(v, v2, i)
    {
      assert SameFile(v, v1, i) && SameFile(v1, v2, i);
    }
  }

  /** No byte of any file changes. */
  ghost predicate SameBytes(v: Vol, v': Vol) {
    && |v'.inos| == |v.inos|
    && forall i :: 0 <= i < |v.inos| ==> SameFile(v, v', i)
  }

  ghost predicate SameFile(v: Vol, v': Vol, i: nat)
    requires i < |v.inos| && i < |v'.inos|
  {
    && |v.inos[i].addrs| == NDIRECT + 1 && |v'.inos[i].addrs| == NDIRECT + 1 && v'.inos[i].size == v.inos[i].size
    && forall o :: 0 <= o ==> FileByte(v', i, o) == FileByte(v, i, o)
  }

  lemma AllocBytes(sb: Super, v: Vol, owner: Owner, loose: set<nat>, b: nat)
    requires Owned(sb, v, owner, loose, {}) && b < sb.size && !v.bits[b]
    ensures SameBytes(v, Vol(v.bl[b := ZeroBlock()], v.inos, v.bits[b := true]))
  {
    assert BitOk(sb, v, owner, loose, b);
    var v' := Vol(v.bl[b := ZeroBlock()], v.inos, v.bits[b := true]);
    forall i | 0 <= i < |v.inos|
      ensures SameFile(v, v', i)
    {
      assert InodeOk(v, owner, i) && SlotOk(v, owner, i, NDIRECT);
      forall o | 0 <= o
        ensures FileByte(v', i, o) == FileByte(v, i, o)
      {
        if o / BSIZE < MAXFILE {
          assert SlotOk(v, owner, i, SlotOf(o / BSIZE));
        }
      }
    }
  }

  /** A clear block in an empty slot reads like the hole it fills. */
  lemma AttachBytes(sb: Super, v: Vol, owner: Owner, loose: set<nat>, i: nat, k: nat, b: nat)
    requires Owned(sb, v, owner, loose, {}) && b in loose && i < |v.inos| && k < SLOTS
    requires Slot(v.bl, v.inos[i], k) == 0 && (k > NDIRECT ==> v.inos[i].addrs[NDIRECT] != 0)
    requires b < |v.bl| && v.bl[b] == ZeroBlock()
    ensures v.inos[i].addrs[NDIRECT] < |v.bl| && SameBytes(v, Attach(v, i, k, b))
  {
    AttachSlot(sb, v, owner, loose, i, k, b, i, 0);
    var v' := Attach(v, i, k, b);
    forall j | 0 <= j < |v.inos|
      ensures SameFile(v, v', j)
    {
      forall o | 0 <= o
        ensures FileByte(v', j, o) == FileByte(v, j, o)
      {
        AttachByte(sb, v, owner, loose, i, k, b, j, o);
      }
    }
  }

  lemma AttachByte(sb: Super, v: Vol, owner: Owner, loose: set<nat>, i: nat, k: nat, b: nat, j: nat, o: nat)
    requires Owned(sb, v, owner, loose, {}) && b in loose && i < |v.inos| && k < SLOTS && j < |v.inos|
    requires Slot(v.bl, v.inos[i], k) == 0 && (k > NDIRECT ==> v.inos[i].addrs[NDIRECT] != 0)
    requires b < |v.bl| && v.bl[b] == ZeroBlock()
    ensures v.inos[i].addrs[NDIRECT] < |v.bl| && Shape(sb, Attach(v, i, k, b))
    ensures FileByte(Attach(v, i, k, b), j, o) == FileByte(v, j, o)
  {
    AttachSlot(sb, v, owner, loose, i, k, b, i, 0);
    if o / BSIZE < MAXFILE {
      var l := SlotOf(o / BSIZE);
      AttachSlot(sb, v, owner, loose, i, k, b, j, l);
      assert InodeOk(v, owner, i) && SlotOk(v, owner, i, NDIRECT);
      assert InodeOk(v, owner, j) && SlotOk(v, owner, j, l);
    }
  }

  /** Writing the bn-th block of file i changes its bytes there and no others. */
  lemma WriteBytes(sb: Super, v: Vol, owner: Owner, loose: set<nat>, i: nat, bn: nat, blk: Block, j: nat, o: nat)
    requires Owned(sb, v, owner, loose, {}) && i < |v.inos| && bn < MAXFILE && BlockNo(v, i, bn) != 0 && j < |v.inos|
    ensures BlockNo(v, i, bn) in owner && owner[BlockNo(v, i, bn)].k != NDIRECT && BlockNo(v, i, bn) < |v.bl|
    ensures var v' := v.(bl := v.bl[BlockNo(v, i, bn) := blk]);
            FileByte(v', j, o) == if j == i && o / BSIZE == bn then blk[o % BSIZE] else FileByte(v, j, o)
    ensures forall n :: 0 <= n < MAXFILE ==> BlockNo(v.(bl := v.bl[BlockNo(v, i, bn) := blk]), j, n) == BlockNo(v, j, n)
  {
    var b := BlockNo(v, i, bn);
    assert InodeOk(v, owner, i) && SlotOk(v, owner, i, SlotOf(bn)) && OwnerOk(sb, v, owner, {}, b);
    assert InodeOk(v, owner, j) && SlotOk(v, owner, j, NDIRECT);
    if o / BSIZE < MAXFILE {
      assert SlotOk(v, owner, j, SlotOf(o / BSIZE));
    }
  }

  // ---------------------------------------------------------------- writing a range

  /** Relative to v0, file i has the first n bytes of src from off on, and nothing else differs. */
  ghost predicate Spliced(v0: Vol, v: Vol, i: nat, off: nat, src: seq<Byte>, n: nat) {
    && |v.inos| == |v0.inos| && n <= |src|
    && forall j :: 0 <= j < |v0.inos| ==> SplicedFile(v0, v, i, off, src, n, j)
  }

  ghost predicate SplicedFile(v0: Vol, v: Vol, i: nat, off: nat, src: seq<Byte>, n: nat, j: nat)
    requires j < |v0.inos| && j < |v.inos| && n <= |src|
  {
    && |v0.inos[j].addrs| == NDIRECT + 1 && |v.inos[j].addrs| == NDIRECT + 1 && v.inos[j].size == v0.inos[j].size
    && forall o :: 0 <= o ==>
         FileByte(v, j, o) == if j == i && off <= o < off + n then src[o - off] else FileByte(v0, j, o)
  }

  lemma SplicedSame(v0: Vol, v: Vol, v': Vol, i: nat, off: nat, src: seq<Byte>, n: nat)
    requires Spliced(v0, v, i, off, src, n) && SameBytes(v, v')
    ensures Spliced(v0, v', i, off, src, n)
  {
    forall j | 0 <= j < |v0.inos|
      ensures SplicedFile(v0, v', i, off, src, n, j)
    {
      assert SplicedFile(v0, v, i, off, src, n, j) && SameFile(v, v', j);
    }
  }

  /** memmove() into a block. */
  function PutBytes(blk: Block, s: nat, bytes: seq<Byte>): Block
    requires s + |bytes| <= BSIZE
  {
    blk[..s] + bytes + blk[s + |bytes|..]
  }

  /** Offset o lies in the m bytes that start s bytes into block bn. */
  lemma InChunk(o: nat, bn: nat, s: nat, m: nat)
    requires s + m <= BSIZE
    ensures bn * BSIZE + s <= o < bn * BSIZE + s + m <==> o / BSIZE == bn && s <= o % BSIZE < s + m
    ensures o / BSIZE == bn ==> o == bn * BSIZE + o % BSIZE
  {
  }

  /** The volume after m more bytes have been copied into the block that offset off + tot is in. */
  function PutChunk(v: Vol, i: nat, off: nat, src: seq<Byte>, tot: nat, m: nat): Vol
    requires i < |v.inos| && |v.inos[i].addrs| == NDIRECT + 1 && Bn(off + tot) < MAXFILE
    requires tot + m <= |src| && Bo(off + tot) + m <= BSIZE && BlockNo(v, i, Bn(off + tot)) < |v.bl|
  {
    var b := BlockNo(v, i, Bn(off + tot));
    v.(bl := v.bl[b := PutBytes(v.bl[b], Bo(off + tot), src[tot..tot + m])])
  }

  lemma ChunkByte(sb: Super, v: Vol, owner: Owner, i: nat, off: nat, src: seq<Byte>, tot: nat, m: nat, j: nat, o: nat)
    requires Owned(sb, v, owner, {}, {}) && i < |v.inos| && Bn(off + tot) < MAXFILE && j < |v.inos|
    requires tot + m <= |src| && Bo(off + tot) + m <= BSIZE && BlockNo(v, i, Bn(off + tot)) != 0
    ensures BlockNo(v, i, Bn(off + tot)) < |v.bl|
    ensures FileByte(PutChunk(v, i, off, src, tot, m), j, o)
         == if j == i && off + tot <= o < off + tot + m then src[o - off] else FileByte(v, j, o)
  {
    var bn, s := Bn(off + tot), Bo(off + tot);
    WriteBytes(sb, v, owner, {}, i, bn, ZeroBlock(), j, o);
    var blk := PutBytes(v.bl[BlockNo(v, i, bn)], s, src[tot..tot + m]);
    WriteBytes(sb, v, owner, {}, i, bn, blk, j, o);
    InChunk(o, bn, s, m);
    InChunk(off + tot, bn, 0, BSIZE);
    if o / BSIZE == bn && s <= o % BSIZE < s + m {
      assert blk[o % BSIZE] == src[tot + (o % BSIZE - s)];
    }
  }

  lemma SplicedChunk(sb: Super, v0: Vol, v: Vol, owner: Owner, i: nat, off: nat, src: seq<Byte>, tot: nat, m: nat)
    requires Owned(sb, v, owner, {}, {}) && i < |v.inos| && Bn(off + tot) < MAXFILE
    requires Spliced(v0, v, i, off, src, tot)
    requires tot + m <= |src| && Bo(off + tot) + m <= BSIZE && BlockNo(v, i, Bn(off + tot)) != 0
    ensures BlockNo(v, i, Bn(off + tot)) < |v.bl|
    ensures Spliced(v0, PutChunk(v, i, off, src, tot, m), i, off, src, tot + m)
  {
    ChunkByte(sb, v, owner, i, off, src, tot, m, i, 0);
    var v', n := PutChunk(v, i, off, src, tot, m), tot + m;
    forall j | 0 <= j < |v0.inos|
      ensures SplicedFile(v0, v', i, off, src, n, j)
    {
      assert SplicedFile(v0, v, i, off, src, tot, j);
      forall o | 0 <= o
        ensures FileByte(v', j, o) == if j == i && off <= o < off + n then src[o - off] else FileByte(v0, j, o)
      {
        ChunkByte(sb, v, owner, i, off, src, tot, m, j, o);
      }
    }
  }

  /** Copying into a data block keeps ownership and every slot. */
  lemma ChunkOwned(sb: Super, v: Vol, owner: Owner, i: nat, off: nat, src: seq<Byte>, tot: nat, m: nat)
    requires Owned(sb, v, owner, {}, {}) && i < |v.inos| && Bn(off + tot) < MAXFILE
    requires tot + m <= |src| && Bo(off + tot) + m <= BSIZE && BlockNo(v, i, Bn(off + tot)) != 0
    ensures BlockNo(v, i, Bn(off + tot)) < |v.bl|
    ensures Owned(sb, PutChunk(v, i, off, src, tot, m), owner, {}, {}) && Grown(v, PutChunk(v, i, off, src, tot, m))
  {
    var b := BlockNo(v, i, Bn(off + tot));
    WriteBytes(sb, v, owner, {}, i, Bn(off + tot), ZeroBlock(), i, 0);
    WriteOwned(sb, v, owner, {}, b, PutBytes(v.bl[b], Bo(off + tot), src[tot..tot + m]));
    forall j | 0 <= j < |v.inos|
      ensures GrownFile(v, PutChunk(v, i, off, src, tot, m), j)
    {
    }
  }

  lemma BackedGrown(v: Vol, v': Vol, i: nat, n: nat)
    requires Grown(v, v') && i < |v.inos| && |v.inos[i].addrs| == NDIRECT + 1 && Backed(v, i, n)
    ensures |v'.inos[i].addrs| == NDIRECT + 1 && Backed(v', i, n)
  {
    assert GrownFile(v, v', i);
    forall bn | 0 <= bn < MAXFILE && bn * BSIZE < n
      ensures BlockNo(v', i, bn) != 0
    {
      assert BlockNo(v, i, bn) != 0;
    }
  }

  lemma BackedMore(v: Vol, i: nat, n: nat, o: nat, m: nat)
    requires i < |v.inos| && |v.inos[i].addrs| == NDIRECT + 1 && Backed(v, i, n) && o <= n
    requires Bn(o) < MAXFILE && BlockNo(v, i, Bn(o)) != 0 && Bo(o) + m <= BSIZE
    ensures Backed(v, i, Max(n, o + m))
  {
    forall bn | 0 <= bn < MAXFILE && bn * BSIZE < o + m
      ensures BlockNo(v, i, bn) != 0
    {
      assert bn * BSIZE < n || bn == o / BSIZE;
    }
  }

  function Max(a: nat, b: nat): nat { if a < b then b else a }

  /** s placed at off, growing the string if it goes past the end. */
  function Splice(c: seq<Byte>, off: nat, s: seq<Byte>): (r: seq<Byte>)
    requires off <= |c|
    ensures |r| == Max(|c|, off + |s|)
  {
    c[..off] + s + if off + |s| < |c| then c[off + |s|..] else []
  }

  /** writei() ends by setting the size. */
  function Resized(v: Vol, i: nat, n: nat): Vol
    requires i < |v.inos|
  {
    v.(inos := v.inos[i := v.inos[i].(size := n)])
  }

  lemma ResizedOwned(sb: Super, v: Vol, owner: Owner, i: nat, n: nat)
    requires Owned(sb, v, owner, {}, {}) && i < |v.inos|
    ensures Owned(sb, Resized(v, i, n), owner, {}, {})
  {
    var v' := Resized(v, i, n);
    forall j | 0 <= j < |v.inos|
      ensures InodeOk(v', owner, j)
    {
      assert InodeOk(v, owner, j);
      forall k | 0 <= k < SLOTS
        ensures SlotOk(v', owner, j, k)
      {
        assert SlotOk(v, owner, j, k);
      }
    }
    forall x | x in owner
      ensures OwnerOk(sb, v', owner, {}, x)
    {
      assert OwnerOk(sb, v, owner, {}, x);
    }
    forall x | 0 <= x < sb.size
      ensures BitOk(sb, v', owner, {}, x)
    {
      assert BitOk(sb, v, owner, {}, x);
    }
  }

  /** The bytes of a file after n bytes of src have been stored at off and r of them counted. */
  lemma SplicedContent(v0: Vol, v: Vol, i: nat, off: nat, src: seq<Byte>, n: nat, r: nat)
    requires Spliced(v0, v, i, off, src, n) && i < |v0.inos| && off <= v0.inos[i].size && r <= n
    ensures |v0.inos[i].addrs| == NDIRECT + 1 && |v.inos[i].addrs| == NDIRECT + 1
    ensures var size := Max(v0.inos[i].size, off + r);
            Content(Resized(v, i, size), i) == Splice(Content(v0, i), off, src[..n])[..size]
  {
    assert SplicedFile(v0, v, i, off, src, n, i);
    var size := Max(v0.inos[i].size, off + r);
    var v' := Resized(v, i, size);
    var c, c' := Splice(Content(v0, i), off, src[..n]), Content(v', i);
    forall o | 0 <= o < size
      ensures c'[o] == c[o]
    {
      assert FileByte(v', i, o) == FileByte(v, i, o);
    }
  }

  lemma SplicedOther(v0: Vol, v: Vol, i: nat, off: nat, src: seq<Byte>, n: nat, size: nat, j: nat)
    requires Spliced(v0, v, i, off, src, n) && i < |v0.inos| && j < |v0.inos| && j != i
    ensures |v0.inos[j].addrs| == NDIRECT + 1 && |v.inos[j].addrs| == NDIRECT + 1
    ensures Content(Resized(v, i, size), j) == Content(v0, j)
  {
    assert SplicedFile(v0, v, i, off, src, n, j);
    var c, c' := Content(v0, j), Content(Resized(v, i, size), j);
    forall o | 0 <= o < |c|
      ensures c'[o] == c[o]
    {
      assert FileByte(Resized(v, i, size), j, o) == FileByte(v, j, o);
    }
  }
}
