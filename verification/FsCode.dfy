/** The block allocator, bmap(), itrunc(), readi() and writei() of kernel/fs.c and the
    chunking loop of filewrite() in kernel/file.c, as loops over the volume of module Fs. */
module FsCode {
  import opened Blocks
  import opened Fs
  import opened FsRoom
  import opened Params
  import opened Counting

  const BPB := 8192 // bitmap bits per block
  const IPB := 16   // inodes per block
  const MAXCHUNK := 3072 // the most bytes that filewrite() writes at a time, see Budget

  class FileSystem {
    const sb: Super
    var blocks: seq<Block>
    var inodes: seq<Inode>
    var bitmap: seq<bool>
    var dinodes: seq<Inode>   // the inodes as iupdate() last wrote them
    ghost var owner: Owner
    ghost var loose: set<nat>
    ghost var skip: set<nat>
    ghost var logged: set<nat> // blocks passed to log_write() since begin_op()
    ghost var inOp: bool       // between begin_op() and end_op()
    ghost var worst: nat       // the most blocks that an operation has logged

    ghost function V(): Vol
      reads this
    {
      Vol(blocks, inodes, bitmap)
    }

    ghost predicate Valid()
      reads this
    {
      Owned(sb, V(), owner, loose, skip) && |dinodes| == |inodes|
    }

    /** The bitmap block that has the bit of block b. */
    function BBlock(b: nat): (r: nat)
      ensures r >= sb.bmapstart && (r - sb.bmapstart) * BPB <= b < (r - sb.bmapstart) * BPB + BPB
    {
      b / BPB + sb.bmapstart
    }

    /** The inode block that has inode i. */
    function IBlock(i: nat): (r: nat)
      ensures r >= sb.inodestart && (r - sb.inodestart) * IPB <= i < (r - sb.inodestart) * IPB + IPB
    {
      i / IPB + sb.inodestart
    }

    /** balloc(): the first free block, marked and cleared; 0 where the kernel panics. */
    method Balloc() returns (r: nat)
      requires Valid()
      modifies this`blocks, this`bitmap, this`loose, this`logged
      ensures Valid() && |old(bitmap)| == sb.size
      ensures r == 0 ==> V() == old(V()) && loose == old(loose) && logged == old(logged)
      ensures r == 0 ==> forall x :: 0 <= x < sb.size ==> bitmap[x]
      ensures r != 0 ==> r < sb.size && !old(bitmap)[r] && (forall x :: 0 <= x < r ==> old(bitmap)[x])
      ensures r != 0 ==> r < |old(blocks)| && V() == Vol(old(blocks)[r := ZeroBlock()], inodes, old(bitmap)[r := true])
      ensures r != 0 ==> r !in owner && loose == old(loose) + {r} && logged == old(logged) + {BBlock(r), r}
    {
      assert Shape(sb, V());
      hide Owned;
      var b := 0;
      while b < sb.size
        invariant (forall x :: 0 <= x < b && x < sb.size ==> bitmap[x]) && unchanged(this)
      {
        var bi := 0;
        while bi < BPB && b + bi < sb.size
          invariant bi <= BPB && (forall x :: 0 <= x < b + bi && x < sb.size ==> bitmap[x]) && unchanged(this)
        {
          if !bitmap[b + bi] {
            AllocOwned(sb, V(), owner, loose, skip, b + bi);
            bitmap := bitmap[b + bi := true];
            blocks := blocks[b + bi := ZeroBlock()];
            logged := logged + {BBlock(b + bi), b + bi};
            loose := loose + {b + bi};
            return b + bi;
          }
          bi := bi + 1;
        }
        b := b + BPB;
      }
      r := 0;
    }

    /** bfree(). */
    method Bfree(b: nat)
      requires Valid() && b in loose
      modifies this`bitmap, this`loose, this`logged
      ensures Valid() && b < |old(bitmap)| && old(bitmap)[b] && bitmap == old(bitmap)[b := false]
      ensures loose == old(loose) - {b} && logged == old(logged) + {BBlock(b)}
    {
      hide Owned;
      FreeOwned(sb, V(), owner, loose, skip, b);
      assert Shape(sb, V()) by { ShapeOf(sb, V(), owner, loose, skip); }
      bitmap := bitmap[b := false];
      logged := logged + {BBlock(b)};
      loose := loose - {b};
    }

    /** iupdate(). */
    method Iupdate(i: nat)
      requires Valid() && i < |inodes|
      modifies this`dinodes, this`logged
      ensures Valid() && dinodes == old(dinodes)[i := inodes[i]] && logged == old(logged) + {IBlock(i)}
    {
      dinodes := dinodes[i := inodes[i]];
      logged := logged + {IBlock(i)};
    }

    /** balloc() into an empty slot: of the inode, or of its indirect block, which is then logged. */
    method AllocInto(i: nat, k: nat) returns (r: nat)
      requires Valid() && loose == {} && skip == {} && i < |inodes| && k < SLOTS && |inodes[i].addrs| == NDIRECT + 1
      requires Slot(blocks, inodes[i], k) == 0 && (k > NDIRECT ==> inodes[i].addrs[NDIRECT] != 0)
      modifies this`blocks, this`inodes, this`bitmap, this`owner, this`loose, this`logged
      ensures Valid() && loose == {} && |inodes| == |old(inodes)| && |inodes[i].addrs| == NDIRECT + 1
      ensures r == 0 ==> V() == old(V()) && owner == old(owner) && logged == old(logged)
      ensures r != 0 ==> Slot(blocks, inodes[i], k) == r && SameBytes(old(V()), V()) && Grown(old(V()), V())
      ensures r != 0 ==> logged == old(logged) + {BBlock(r), r} + if k > NDIRECT then {inodes[i].addrs[NDIRECT]} else {}
      ensures r != 0 && k != NDIRECT ==> inodes[i].addrs[NDIRECT] == old(inodes)[i].addrs[NDIRECT]
      ensures r == 0 ==> FreeBits(bitmap) == {}
      ensures r != 0 ==> Filled(old(V()), V(), i, {k})
      ensures Noted(old(blocks), blocks, logged)
    {
      hide Owned;
      hide Filled;
      r := Balloc();
      assert |bitmap| == sb.size by { ShapeOf(sb, V(), owner, loose, skip); }
      if r != 0 {
        ghost var v, v1 := old(V()), V();
        Attached(sb, v, owner, r, i, k);
        hide SameBytes;
        hide Grown;
        if k <= NDIRECT {
          inodes := inodes[i := inodes[i].(addrs := inodes[i].addrs[k := r])];
        } else {
          var d := inodes[i].addrs[NDIRECT];
          blocks := blocks[d := SetWord(blocks[d], k - NDIRECT - 1, r)];
          logged := logged + {d};
        }
        owner := owner[r := Loc(i, k)];
        loose := loose - {r};
        assert loose == {};
        assert V() == Attach(v1, i, k, r);
      }
    }

    /** The block number in slot k, with a new block put there if the slot is empty. */
    method SlotBlock(i: nat, k: nat) returns (addr: nat, ghost maps: set<nat>)
      requires Valid() && loose == {} && skip == {} && i < |inodes| && k < SLOTS && |inodes[i].addrs| == NDIRECT + 1
      requires k > NDIRECT ==> inodes[i].addrs[NDIRECT] != 0
      modifies this`blocks, this`inodes, this`bitmap, this`owner, this`loose, this`logged
      ensures Valid() && loose == {} && (V() == old(V()) ==> owner == old(owner))
      ensures SlotDone(old(V()), V(), i, k, addr, old(logged), logged, maps)
    {
      hide Owned;
      hide SameBytes;
      hide Grown;
      hide Filled;
      hide Noted;
      hide InUse;
      hide FreeBits;
      Unchanged(sb, V(), owner);
      FilledAlready(V(), i, k);
      NotedSame(blocks, logged);
      maps := {};
      addr := Slot(blocks, inodes[i], k);
      if addr == 0 {
        addr := AllocInto(i, k);
        if addr != 0 {
          maps := {BBlock(addr)};
        }
      }
    }

    /** bmap(): the block number of the bn-th block, allocated if need be; 0 where balloc()
        panics.  The ghost result holds the bitmap blocks that were logged. */
    method Bmap(i: nat, bn: nat) returns (addr: nat, ghost maps: set<nat>)
      requires Valid() && loose == {} && skip == {} && i < |inodes| && bn < MAXFILE && |inodes[i].addrs| == NDIRECT + 1
      modifies this`blocks, this`inodes, this`bitmap, this`owner, this`loose, this`logged
      ensures Valid() && loose == {} && (BlockNo(old(V()), i, bn) != 0 ==> owner == old(owner))
      ensures BlockDone(old(V()), V(), i, bn, addr, old(logged), logged, maps)
    {
      hide Valid;
      hide SlotDone;
      hide BlockDone;
      if bn < NDIRECT {
        addr, maps := SlotBlock(i, bn);
        DirectDone(old(V()), V(), i, bn, addr, old(logged), logged, maps);
        return;
      }
      var d, m1 := SlotBlock(i, NDIRECT);
      if d == 0 {
        IndirectFails(old(V()), V(), i, bn, old(logged), logged, m1);
        return 0, m1;
      }
      ghost var v1, l1, m2: set<nat> := V(), logged, {};
      IndirectThere(old(V()), v1, i, d, old(logged), l1, m1);
      addr, m2 := SlotBlock(i, bn + 1);
      IndirectDone(old(V()), v1, V(), i, bn, d, addr, old(logged), l1, logged, m1, m2);
      maps := m1 + m2;
    }

    /** if(addr) { bfree(addr); } for a block that itrunc() still has to free. */
    method FreeLeft(b: nat)
      requires Valid() && (b != 0 ==> b in loose)
      modifies this`bitmap, this`loose, this`logged
      ensures Valid() && loose == old(loose) - (if b != 0 then {b} else {})
    {
      if b != 0 {
        Bfree(b);
      }
    }

    /** The direct blocks of itrunc(). */
    method TruncDirect(i: nat, ghost v0: Vol, ghost owner0: Owner)
      requires Valid() && Owned(sb, v0, owner0, {}, {}) && V() == v0 && i < |inodes| && |inodes[i].addrs| == NDIRECT + 1
      requires loose == Left(owner0, i, 0, 0) && skip == {i}
      modifies this`inodes, this`bitmap, this`loose, this`logged
      ensures Valid() && loose == Left(owner0, i, NDIRECT, 0)
      ensures Emptied(old(inodes), inodes, i, NDIRECT)
    {
      hide Owned;
      hide Left;
      var k := 0;
      while k < NDIRECT
        invariant k <= NDIRECT && Valid() && loose == Left(owner0, i, k, 0) && Emptied(v0.inos, inodes, i, k)
      {
        var b := inodes[i].addrs[k];
        LeftStep(sb, v0, owner0, i, k, 0);
        LeftZero(sb, v0, owner0, i, k, 0);
        FreeLeft(b);
        ApartOwned(sb, V(), owner, loose, i, inodes[i].(addrs := inodes[i].addrs[k := 0]));
        inodes := inodes[i := inodes[i].(addrs := inodes[i].addrs[k := 0])];
        k := k + 1;
      }
    }

    /** The entries of the indirect block. */
    method TruncEntries(i: nat, d: nat, ghost v0: Vol, ghost owner0: Owner)
      requires Valid() && Owned(sb, v0, owner0, {}, {}) && blocks == v0.bl && i < |v0.inos|
      requires |v0.inos[i].addrs| == NDIRECT + 1 && v0.inos[i].addrs[NDIRECT] == d && 0 < d < |blocks|
      requires loose == Left(owner0, i, NDIRECT, 0) && skip == {i}
      modifies this`bitmap, this`loose, this`logged
      ensures Valid() && loose == Left(owner0, i, NDIRECT, WORDS)
    {
      hide Owned;
      hide Left;
      var j := 0;
      while j < WORDS
        invariant j <= WORDS && Valid() && loose == Left(owner0, i, NDIRECT, j)
      {
        var b := GetWord(blocks[d], j);
        assert b == Slot(v0.bl, v0.inos[i], NDIRECT + 1 + j);
        LeftStep(sb, v0, owner0, i, NDIRECT, j);
        LeftZero(sb, v0, owner0, i, NDIRECT, j);
        FreeLeft(b);
        j := j + 1;
      }
    }

    /** itrunc(): exactly the blocks of inode i become free, and no other file changes. */
    method Itrunc(i: nat)
      requires Valid() && loose == {} && skip == {} && i < |inodes|
      modifies this`inodes, this`bitmap, this`dinodes, this`owner, this`loose, this`skip, this`logged
      ensures Valid() && loose == {} && skip == {} && owner == Others(old(owner), i)
      ensures inodes == old(inodes)[i := Inode(0, seq(NDIRECT + 1, k => 0))] && dinodes == old(dinodes)[i := inodes[i]]
      ensures |bitmap| == |old(bitmap)|
      ensures forall b :: 0 <= b < |bitmap| ==> (bitmap[b] <==> old(bitmap)[b] && b !in Left(old(owner), i, 0, 0))
    {
      hide Owned;
      hide Left;
      hide Others;
      ghost var v0, owner0 := V(), owner;
      ShapeOf(sb, v0, owner0, {}, {});
      DetachOwned(sb, v0, owner, i);
      owner, loose, skip := Others(owner, i), Left(owner, i, 0, 0), {i};
      TruncDirect(i, v0, owner0);
      var d := inodes[i].addrs[NDIRECT];
      LeftNone(sb, v0, owner0, i);
      if d != 0 {
        LeftStep(sb, v0, owner0, i, NDIRECT, WORDS);
        assert d < |blocks| by { SlotBound(sb, v0, owner0, i); }
        TruncEntries(i, d, v0, owner0);
        Bfree(d);
        ApartOwned(sb, V(), owner, loose, i, inodes[i].(addrs := inodes[i].addrs[NDIRECT := 0]));
        inodes := inodes[i := inodes[i].(addrs := inodes[i].addrs[NDIRECT := 0])];
      }
      ApartOwned(sb, V(), owner, loose, i, inodes[i].(size := 0));
      inodes := inodes[i := inodes[i].(size := 0)];
      EmptyOwned(sb, V(), owner, loose, i);
      skip := {};
      assert inodes[i].addrs == seq(NDIRECT + 1, k => 0);
      Iupdate(i);
      ShapeOf(sb, V(), owner, {}, {});
      forall b | 0 <= b < |bitmap|
        ensures bitmap[b] <==> old(bitmap)[b] && b !in Left(owner0, i, 0, 0)
      {
        BitsLeft(sb, v0, owner0, V(), i, b);
      }
    }

    /** The memmove() calls of copyin(): bytes of src into the block at file offset off + tot. */
    method StoreChunk(i: nat, off: nat, src: seq<Byte>, tot: nat, m: nat, addr: nat)
      requires Valid() && loose == {} && skip == {} && i < |inodes| && |inodes[i].addrs| == NDIRECT + 1
      requires tot + m <= |src| && Bn(off + tot) < MAXFILE && Bo(off + tot) + m <= BSIZE
      requires addr == BlockNo(V(), i, Bn(off + tot)) && addr != 0
      modifies this`blocks
      ensures Valid() && addr < |old(blocks)| && V() == PutChunk(old(V()), i, off, src, tot, m)
    {
      hide Owned;
      ChunkOwned(sb, V(), owner, i, off, src, tot, m);
      blocks := blocks[addr := PutBytes(blocks[addr], Bo(off + tot), src[tot..tot + m])];
    }

    /** bmap() for offset off + tot, with the blocks it logs added to the tally. */
    method TouchBlock(i: nat, off: nat, tot: nat, ghost t: Tally, ghost before: set<nat>)
      returns (addr: nat, ghost t': Tally)
      requires Valid() && loose == {} && skip == {} && i < |inodes| && |inodes[i].addrs| == NDIRECT + 1
      requires Bn(off + tot) < MAXFILE && (t.it == 0 <==> tot == 0)
      requires tot == 0 && Late(off) == 1 ==> BlockNo(V(), i, Bn(off + tot)) != 0
      requires TallyOk(t, Late(off), inodes[i].addrs[NDIRECT]) && logged <= before + t.d + t.m + t.x
      modifies this`blocks, this`inodes, this`bitmap, this`owner, this`loose, this`logged
      ensures Valid() && loose == {} && |inodes| == |old(inodes)| && |inodes[i].addrs| == NDIRECT + 1
      ensures SameBytes(old(V()), V()) && Grown(old(V()), V())
      ensures addr != 0 ==> addr == BlockNo(V(), i, Bn(off + tot)) && t'.it == t.it + 1 && addr in t'.d
      ensures addr != 0 ==> TallyOk(t', Late(off), inodes[i].addrs[NDIRECT]) && logged <= before + t'.d + t'.m + t'.x
      ensures addr != 0 ==> Filled(old(V()), V(), i, Slots(Bn(off + tot), Bn(off + tot) + 1))
      ensures old(logged) <= logged && Noted(old(blocks), blocks, logged)
      ensures addr == 0 ==> Short(old(V()), i, Bn(off + tot), Bn(off + tot) + 1)
    {
      hide Owned;
      hide Filled;
      hide Short;
      hide Slots;
      hide SameBytes;
      hide Grown;
      hide BlockNo;
      hide TallyOk;
      hide Needed;
      hide Bn;
      hide Late;
      ghost var v, maps := V(), {};
      addr, maps := Bmap(i, Bn(off + tot));
      t' := t;
      if addr != 0 {
        TallyStep(v, V(), i, off, tot, t, addr, maps);
        t' := Add(t, v.inos[i], inodes[i], Bn(off + tot), addr, maps);
        LoggedTally(before, old(logged), logged, t, t', maps, addr, Indirect(inodes[i], Bn(off + tot)));
      }
    }

    /** The loop of writei(), block by block.  Of src lim bytes are readable, and copyin() stores
        every one of them, but a piece that is not readable to its end is neither logged nor
        counted in the result.  None of the sizes change yet. */
    method WriteBlocks(i: nat, off: nat, src: seq<Byte>, lim: nat) returns (tot: nat, panicked: bool, ghost t: Tally)
      requires Valid() && loose == {} && skip == {} && i < |inodes| && |inodes[i].addrs| == NDIRECT + 1
      requires NoHoles(V(), i) && off <= inodes[i].size && off + |src| <= MAXFILE * BSIZE
      modifies this`blocks, this`inodes, this`bitmap, this`owner, this`loose, this`logged
      ensures Valid() && loose == {} && |inodes| == |old(inodes)| && |inodes[i].addrs| == NDIRECT + 1
      ensures panicked ==> Short(old(V()), i, Bn(off), Bn(off) + Tried(off, |src|, lim))
      ensures !panicked ==> Stored(old(V()), V(), i, off, src, lim, tot, t, old(logged), logged)
    {
      hide Owned;
      hide Copied;
      hide Touching;
      hide Stored;
      hide Short;
      hide TallyOk;
      hide Filled;
      hide SameBytes;
      hide Grown;
      hide Noted;
      hide Slots;
      hide BlockNo;
      hide Bn;
      hide Bo;
      hide Late;
      hide Piece;
      hide PutChunk;
      ghost var v0 := V();
      tot, t := 0, Tally({}, {}, {}, 0, 0);
      CopiedNone(sb, v0, owner, i, off, src, lim, logged);
      while tot < |src|
        invariant tot <= |src| && Valid() && loose == {} && |inodes| == |v0.inos| && |inodes[i].addrs| == NDIRECT + 1
        invariant Copied(v0, V(), i, off, src, lim, tot, t, old(logged), logged)
      {
        BlockInFile(off, |src|, tot);
        ghost var v1, t1, l1 := V(), t, logged;
        CopiedOf(v0, v1, i, off, src, lim, tot, t1, old(logged), l1);
        var addr;
        addr, t := TouchBlock(i, off, tot, t, old(logged));
        if addr == 0 {
          CopiedShort(v0, v1, i, off, src, lim, tot, t1, old(logged), l1);
          return tot, true, t;
        }
        ghost var v2 := V();
        CopiedTouched(v0, v1, v2, i, off, src, lim, tot, t1, t, addr, old(logged), l1, logged);
        var m := Piece(off, |src|, tot);
        PieceBound(off, |src|, tot);
        TouchingOf(v0, v2, i, off, src, lim, tot, t, addr, old(logged), logged);
        if tot + m > lim {
          StoreChunk(i, off, src, tot, lim - tot, addr);
          StoredPart(sb, v0, v2, owner, i, off, src, lim, tot, t, addr, old(logged), logged);
          return tot, false, t;
        }
        StoreChunk(i, off, src, tot, m, addr);
        CopiedMore(sb, v0, v2, owner, i, off, src, lim, tot, t, addr, old(logged), logged);
        logged := logged + {addr};
        tot := tot + m;
      }
      CopiedAll(v0, V(), i, off, src, lim, t, old(logged), logged);
      panicked := false;
    }

    /** writei(): stores the readable bytes of src in file i at off, or refuses.  The size and
        the result count whole pieces only (Reach), so that a copy that fails part way has
        stored up to a block more than it reports, below the old size for every reader to see.
        Other files keep their bytes, no hole appears, every other block that changed is logged,
        and a chunk of filewrite() logs at most MAXOPBLOCKS blocks.  It panics exactly when the
        blocks it looks at lack more blocks than are free. */
    method Writei(i: nat, off: nat, src: seq<Byte>, lim: nat) returns (r: int, panicked: bool)
      requires Valid() && loose == {} && skip == {} && i < |inodes| && |inodes[i].addrs| == NDIRECT + 1
      requires NoHoles(V(), i) && off < 0x1_0000_0000 && |src| < 0x1_0000_0000 && inOp
      modifies this`blocks, this`inodes, this`bitmap, this`dinodes, this`owner, this`loose, this`logged
      ensures Valid() && loose == {} && |inodes| == |old(inodes)| && |inodes[i].addrs| == NDIRECT + 1
      ensures !Fits(old(inodes)[i], off, |src|) ==> r == -1 && !panicked && V() == old(V()) && logged == old(logged)
      ensures !panicked && Fits(old(inodes)[i], off, |src|) ==>
                && Wrote(old(V()), V(), i, off, src, Min(|src|, lim), Reach(off, |src|, lim))
                && r == Reach(off, |src|, lim) && NoHoles(V(), i) && dinodes == old(dinodes)[i := inodes[i]]
      ensures !panicked && Fits(old(inodes)[i], off, |src|) ==>
                NotedBut(old(blocks), V(), logged, i, off, |src|, lim)
      ensures !panicked && |src| <= MAXCHUNK ==> |logged - old(logged)| <= MAXOPBLOCKS
      ensures Fits(old(inodes)[i], off, |src|) ==>
                (panicked <==> Short(old(V()), i, Bn(off), Bn(off) + Tried(off, |src|, lim)))
      ensures !panicked && Fits(old(inodes)[i], off, |src|) ==>
                Filled(old(V()), V(), i, Slots(Bn(off), Bn(off) + Tried(off, |src|, lim)))
    {
      hide Owned;
      hide Wrote;
      hide Filled;
      hide Short;
      hide Slots;
      hide Tried;
      hide Stored;
      hide TallyOk;
      hide Reach;
      hide Touched;
      hide NoHoles;
      hide NotedBut;
      if off > inodes[i].size || (off + |src|) % 0x1_0000_0000 < off {
        return -1, false;
      }
      if off + |src| > MAXFILE * BSIZE {
        return -1, false;
      }
      ghost var v0 := V();
      var tot, stop, t := WriteBlocks(i, off, src, lim);
      if stop {
        return 0, true;
      }
      ghost var v1, l1 := V(), logged;
      StoredOf(v0, v1, i, off, src, lim, tot, t, old(logged), logged);
      ResizedOwned(sb, v1, owner, i, Max(v0.inos[i].size, off + tot));
      HolesSize(v0, i);
      WroteAll(v0, v1, i, off, src, lim, tot, t, old(logged), logged);
      if off + tot > inodes[i].size {
        inodes := inodes[i := inodes[i].(size := off + tot)];
      }
      assert V() == Resized(v1, i, Max(v0.inos[i].size, off + tot));
      Iupdate(i);
      NotedMore(old(blocks), V(), l1, logged, i, off, |src|, lim);
      if |src| <= MAXCHUNK {
        Budget(t, off, |src|, v1.inos[i].addrs[NDIRECT], logged - old(logged), IBlock(i));
      }
      return tot, false;
    }

    /** readi(): the bytes of file i from off on, as far as the file goes; -1 if the user's
        buffer (lim writable bytes) is too short, which then is full.  Nothing changes: no block is missing. */
    method Readi(i: nat, off: nat, n: nat, lim: nat) returns (r: int, dst: seq<Byte>)
      requires Valid() && loose == {} && skip == {} && i < |inodes| && |inodes[i].addrs| == NDIRECT + 1
      requires NoHoles(V(), i) && off < 0x1_0000_0000 && n < 0x1_0000_0000
      modifies this`blocks, this`inodes, this`bitmap, this`owner, this`loose, this`logged
      ensures Valid() && V() == old(V()) && owner == old(owner) && loose == {} && logged == old(logged)
      ensures off > inodes[i].size || off + n >= 0x1_0000_0000 ==> r == 0 && dst == []
      ensures off <= inodes[i].size && off + n < 0x1_0000_0000 ==>
                var m := Min(n, inodes[i].size - off);
                && (lim >= m ==> r == m && dst == Content(V(), i)[off..off + m])
                && (lim < m ==> r == -1 && dst == Content(V(), i)[off..off + lim])
    {
      hide Owned;
      hide Filled;
      hide Short;
      hide Slots;
      hide SameBytes;
      hide Grown;
      hide Backed;
      hide Progress;
      hide Bn;
      hide Bo;
      hide Piece;
      hide BlockNo;
      hide FileByte;
      hide NoHoles;
      hide Content;
      hide BlockDone;
      dst := [];
      if off > inodes[i].size || (off + n) % 0x1_0000_0000 < off {
        return 0, [];
      }
      var m := Min(n, inodes[i].size - off);
      ghost var v0 := V();
      var tot := 0;
      while tot < m
        invariant tot <= m && tot == |dst| && (tot <= lim || tot == 0)
        invariant Valid() && V() == v0 && owner == old(owner) && loose == {} && logged == old(logged)
        invariant dst == Content(v0, i)[off..off + tot]
      {
        BlockBacked(v0, i, off, tot);
        var addr, maps := Bmap(i, Bn(off + tot));
        BlockThere(v0, V(), i, Bn(off + tot), addr, old(logged), logged, maps);
        var p := Piece(off, m, tot);
        PieceBound(off, m, tot);
        PieceContent(sb, v0, owner, i, off, m, tot);
        if tot + p > lim {
          dst := dst + blocks[addr][Bo(off + tot)..Bo(off + tot) + (lim - tot)];
          PartContent(Content(v0, i), blocks[addr], off, tot, p, Bo(off + tot), lim);
          return -1, dst;
        }
        dst := dst + blocks[addr][Bo(off + tot)..Bo(off + tot) + p];
        tot := tot + p;
      }
      r := tot;
    }

    ghost method BeginOp()
      requires !inOp
      modifies this`inOp, this`logged
      ensures inOp && logged == {}
    {
      inOp, logged := true, {};
    }

    ghost method EndOp()
      requires inOp
      modifies this`inOp, this`worst
      ensures !inOp && worst == Max(old(worst), |logged|)
    {
      inOp, worst := false, Max(worst, |logged|);
    }

    /** The loop of filewrite(): the file in chunks of MAXCHUNK bytes, each its own
        operation, and none of them logs more than MAXOPBLOCKS blocks.  The offset moves by what
        writei() reports, which may be less than what it stored.  It panics exactly when the
        blocks that its chunks look at lack more blocks than are free. */
    method Filewrite(i: nat, fileOff: nat, src: seq<Byte>, lim: nat)
      returns (ret: int, off: nat, panicked: bool)
      requires Valid() && loose == {} && skip == {} && i < |inodes| && |inodes[i].addrs| == NDIRECT + 1
      requires NoHoles(V(), i) && fileOff < 0x1_0000_0000 && |src| < 0x8000_0000 && !inOp
      modifies this`blocks, this`inodes, this`bitmap, this`dinodes, this`owner, this`loose, this`logged
      modifies this`inOp, this`worst
      ensures Valid() && loose == {} && |inodes| == |old(inodes)| && |inodes[i].addrs| == NDIRECT + 1
      ensures !panicked ==> NoHoles(V(), i) && !inOp && worst <= Max(old(worst), MAXOPBLOCKS)
      ensures !panicked ==> ret == |src| || ret == -1
      ensures !panicked && src != [] ==> (ret == |src| <==> Fits(old(inodes)[i], fileOff, |src|) && lim >= |src|)
      ensures !panicked && fileOff > old(inodes)[i].size ==> V() == old(V()) && off == fileOff
      ensures !panicked && fileOff <= old(inodes)[i].size ==>
                && off == fileOff + Advance(fileOff, |src|, lim)
                && Wrote(old(V()), V(), i, fileOff, src, Min(Room(fileOff, |src|), lim), off - fileOff)
      ensures fileOff > old(inodes)[i].size ==> !panicked
      ensures fileOff <= old(inodes)[i].size ==>
                (panicked <==> Short(old(V()), i, Bn(fileOff), LookEnd(fileOff, |src|, lim)))
    {
      hide Owned;
      hide Filled;
      hide Short;
      hide Slots;
      hide Tried;
      hide Touched;
      hide Bn;
      hide Backed;
      hide Reach;
      hide Wrote;
      hide Room;
      hide LookEnd;
      hide Advance;
      hide Writing;
      var done := 0;
      off, panicked := fileOff, false;
      WritingNone(sb, V(), owner, i, fileOff, src, lim);
      ghost var v0 := V();
      while done < |src|
        invariant done <= |src| && off == fileOff + done && !panicked
        invariant !inOp && worst <= Max(old(worst), MAXOPBLOCKS)
        invariant Valid() && loose == {} && |inodes| == |old(inodes)| && |inodes[i].addrs| == NDIRECT + 1
                  && NoHoles(V(), i)
        invariant fileOff <= v0.inos[i].size ==> Writing(v0, V(), i, fileOff, src, done, lim)
        invariant fileOff > v0.inos[i].size ==> done == 0 && V() == v0
      {
        var n1 := Min(|src| - done, MAXCHUNK);
        BeginOp();
        ghost var v1 := V();
        WritingOf(v0, v1, i, fileOff, src, done, lim);
        var r, stop := Writei(i, off, src[done..done + n1], if lim < done then 0 else lim - done);
        if stop {
          ChunkShort(v0, v1, i, fileOff, src, done, lim);
          return -1, off, true;
        }
        EndOp();
        assert logged - {} == logged;
        if Fits(v1.inos[i], off, n1) {
          ReachAll(off, n1, lim - done);
          if lim - done >= n1 {
            ChunkWhole(v0, v1, V(), i, fileOff, src, done, lim, n1);
          } else {
            ChunkPart(v0, v1, V(), i, fileOff, src, done, lim, n1);
          }
        } else if fileOff <= v0.inos[i].size {
          ChunkRefused(v0, v1, i, fileOff, src, done, lim);
        }
        if r > 0 {
          off := off + r;
        }
        if r != n1 {
          return -1, off, false;
        }
        done := done + r;
      }
      ret := |src|;
      WritingEnds(v0, V(), i, fileOff, src, lim);
    }
  }

  // ---------------------------------------------------------------- the pieces of a range

  /** min(n - tot, BSIZE - off % BSIZE). */
  function Piece(off: nat, n: nat, tot: nat): nat
    requires tot <= n
  {
    if n - tot < BSIZE - Bo(off + tot) then n - tot else BSIZE - Bo(off + tot)
  }

  lemma PieceBound(off: nat, n: nat, tot: nat)
    requires tot < n
    ensures 0 < Piece(off, n, tot) <= n - tot && Bo(off + tot) + Piece(off, n, tot) <= BSIZE
  {
  }

  lemma BlockInFile(off: nat, n: nat, tot: nat)
    requires tot < n && off + n <= MAXFILE * BSIZE
    ensures Bn(off + tot) < MAXFILE
  {
  }

  /** How much of n bytes is copied when lim bytes can be read: all, or whole pieces. */
  function Reach(off: nat, n: nat, lim: nat): nat {
    if lim >= n then n
    else if (off + lim) / BSIZE * BSIZE <= off then 0
    else (off + lim) / BSIZE * BSIZE - off
  }

  /** The number of blocks that n bytes from off on touch. */
  function Touched(off: nat, n: nat): nat {
    if n == 0 then 0 else (off + n - 1) / BSIZE - off / BSIZE + 1
  }

  /** The number of blocks that the loop of writei() looks at: it stops at the first block
      whose bytes it cannot read. */
  function Tried(off: nat, n: nat, lim: nat): nat {
    if lim >= n then Touched(off, n) else (off + lim) / BSIZE - off / BSIZE + 1
  }

  /** The whole chunks of n bytes. */
  function Whole(n: nat): (r: nat)
    ensures r <= n
  {
    n - n % MAXCHUNK
  }

  /** How many of n bytes the chunks of filewrite() cover that end within the largest file. */
  function Room(off: nat, n: nat): nat {
    if off + n <= MAXFILE * BSIZE then n
    else if off > MAXFILE * BSIZE then 0
    else Whole(MAXFILE * BSIZE - off)
  }

  /** How many of n bytes filewrite() reports: the chunks that fit, or the whole chunks that are
      readable and what writei() counts of the next one. */
  function Advance(off: nat, n: nat, lim: nat): nat {
    if lim >= Room(off, n) then Room(off, n)
    else
      var done := Whole(lim);
      done + Reach(off + done, if n < done then 0 else Min(n - done, MAXCHUNK), lim - done)
  }

  /** The end of the blocks that filewrite() looks at. */
  function LookEnd(off: nat, n: nat, lim: nat): nat { Bn(off) + Tried(off, Room(off, n), lim) }

  /** 1 if the range starts inside a block. */
  function Late(off: nat): nat { if off % BSIZE == 0 then 0 else 1 }

  /** it whole pieces, tot bytes, have been copied. */
  ghost predicate Progress(off: nat, n: nat, lim: nat, tot: nat, it: nat) {
    && tot <= n && (tot <= lim || tot == 0)
    && (it == 0 <==> tot == 0)
    && (0 < tot < n ==> off + tot == (off / BSIZE + it) * BSIZE)
    && (0 < tot ==> off / BSIZE + it - 1 == (off + tot - 1) / BSIZE)
  }

  lemma ReachStart(off: nat, n: nat, lim: nat)
    ensures Progress(off, n, lim, 0, 0)
  {
  }

  lemma ProgressTouch(off: nat, n: nat, lim: nat, tot: nat, it: nat)
    requires Progress(off, n, lim, tot, it) && tot < n
    ensures it + 1 <= Touched(off, n) && it + 1 <= Tried(off, n, lim) && (it == 0 <==> tot == 0)
    ensures Bn(off + tot) == Bn(off) + it
  {
  }

  lemma ProgressStep(off: nat, n: nat, lim: nat, tot: nat, it: nat)
    requires Progress(off, n, lim, tot, it) && tot < n && tot + Piece(off, n, tot) <= lim
    ensures Progress(off, n, lim, tot + Piece(off, n, tot), it + 1)
  {
  }

  lemma ProgressStop(off: nat, n: nat, lim: nat, tot: nat, it: nat)
    requires Progress(off, n, lim, tot, it) && tot < n && tot + Piece(off, n, tot) > lim
    ensures tot == Reach(off, n, lim) && it + 1 == Tried(off, n, lim)
  {
  }

  lemma ProgressEnd(off: nat, n: nat, lim: nat, tot: nat, it: nat)
    requires Progress(off, n, lim, tot, it)
    ensures tot == n ==> tot == Reach(off, n, lim) && it == Tried(off, n, lim)
  {
  }

  // ---------------------------------------------------------------- counting log slots

  /** The blocks logged by writei() so far: data blocks, bitmap blocks, the indirect block;
      the number of blocks touched; and 1 if the indirect block was allocated. */
  datatype Tally = Tally(d: set<nat>, m: set<nat>, x: set<nat>, it: nat, j: nat)

  ghost predicate TallyOk(t: Tally, late: nat, ind: nat) {
    && late <= 1 && |t.d| <= t.it && t.j <= 1 && (t.j == 1 ==> ind != 0)
    && |t.m| <= (if t.it == 0 then 0 else t.it - late) + t.j
    && (t.x == {} || (t.x == {ind} && ind != 0))
  }

  ghost function Add(t: Tally, ip: Inode, ip': Inode, bn: nat, addr: nat, maps: set<nat>): Tally
    requires |ip.addrs| == NDIRECT + 1 && |ip'.addrs| == NDIRECT + 1
  {
    Tally(t.d + {addr}, t.m + maps, t.x + Indirect(ip', bn), t.it + 1,
          if bn >= NDIRECT && ip.addrs[NDIRECT] == 0 then 1 else t.j)
  }

  /** One more block of the range: bmap() allocates at most the block and, once, the indirect block;
      a range that starts inside a block finds that block in place. */
  lemma TallyStep(v: Vol, v': Vol, i: nat, off: nat, tot: nat, t: Tally, addr: nat, maps: set<nat>)
    requires i < |v.inos| && |v.inos[i].addrs| == NDIRECT + 1 && Grown(v, v') && |v'.inos[i].addrs| == NDIRECT + 1
    requires Bn(off + tot) < MAXFILE && addr == BlockNo(v', i, Bn(off + tot)) && addr != 0
    requires |maps| <= Needed(v, i, Bn(off + tot)) && (t.it == 0 <==> tot == 0)
    requires tot == 0 && Late(off) == 1 ==> BlockNo(v, i, Bn(off + tot)) != 0
    requires TallyOk(t, Late(off), v.inos[i].addrs[NDIRECT])
    ensures TallyOk(Add(t, v.inos[i], v'.inos[i], Bn(off + tot), addr, maps), Late(off), v'.inos[i].addrs[NDIRECT])
  {
    hide TallyOk;
    hide Grown;
    GrownSlot(v, v', i, NDIRECT);
    var bn := Bn(off + tot);
    var new1 := bn >= NDIRECT && v.inos[i].addrs[NDIRECT] == 0;
    TallyAdd(t, Late(off), v.inos[i].addrs[NDIRECT], v'.inos[i].addrs[NDIRECT], addr, maps,
             Indirect(v'.inos[i], bn), BlockNo(v, i, bn) == 0, new1);
  }

  /** One more data block, bitmap blocks for what was new, and the indirect block. */
  lemma TallyAdd(t: Tally, late: nat, ind: nat, ind': nat, addr: nat, maps: set<nat>, x: set<nat>, new0: bool,
                 new1: bool)
    requires TallyOk(t, late, ind) && (ind != 0 ==> ind' == ind) && (new1 ==> ind == 0 && ind' != 0)
    requires |maps| <= (if new0 then 1 else 0) + (if new1 then 1 else 0) && (t.it == 0 && late == 1 ==> !new0)
    requires x == {} || (x == {ind'} && ind' != 0)
    ensures TallyOk(Tally(t.d + {addr}, t.m + maps, t.x + x, t.it + 1, if new1 then 1 else t.j), late, ind')
  {
    Union(t.d, {addr});
    Union(t.m, maps);
  }

  lemma LoggedTally(l: set<nat>, l1: set<nat>, l2: set<nat>, t: Tally, t': Tally, maps: set<nat>, addr: nat,
                    x: set<nat>)
    requires l1 <= l + t.d + t.m + t.x && l2 <= l1 + maps + {addr} + x
    requires t'.d == t.d + {addr} && t'.m == t.m + maps && t'.x == t.x + x
    ensures l2 <= l + t'.d + t'.m + t'.x
  {
  }

  lemma Union(a: set<nat>, b: set<nat>)
    ensures |a + b| <= |a| + |b|
  {
    assert |a + b| == |a| + |b| - |a * b|;
  }

  lemma MaxTwice(a: nat, off: nat, tot: nat, m: nat)
    ensures off + tot <= Max(a, off + tot) && Max(Max(a, off + tot), off + tot + m) == Max(a, off + (tot + m))
  {
  }

  lemma FirstBacked(v: Vol, i: nat, size: nat, off: nat, tot: nat)
    requires i < |v.inos| && |v.inos[i].addrs| == NDIRECT + 1 && off <= size && Bn(off + tot) < MAXFILE
    requires Backed(v, i, Max(size, off + tot))
    ensures tot == 0 && Late(off) == 1 ==> BlockNo(v, i, Bn(off + tot)) != 0
  {
    assert off % BSIZE != 0 ==> off / BSIZE * BSIZE < off;
  }

  lemma NothingWritten(sb: Super, v: Vol, owner: Owner, i: nat, off: nat, src: seq<Byte>)
    requires Owned(sb, v, owner, {}, {}) && i < |v.inos| && NoHoles(v, i) && off <= v.inos[i].size
    ensures Spliced(v, v, i, off, src, 0) && Backed(v, i, Max(v.inos[i].size, off + 0))
    ensures TallyOk(Tally({}, {}, {}, 0, 0), Late(off), v.inos[i].addrs[NDIRECT])
  {
  }

  /** The chunk size of filewrite() leaves room for the bitmap, the indirect block and the inode. */
  lemma Budget(t: Tally, off: nat, n: nat, ind: nat, new_: set<nat>, iblock: nat)
    requires TallyOk(t, Late(off), ind) && t.it <= Touched(off, n) && n <= MAXCHUNK
             && new_ <= t.d + t.m + t.x + {iblock}
    ensures |new_| <= MAXOPBLOCKS && MAXCHUNK == (MAXOPBLOCKS - 1 - 1 - 2) / 2 * BSIZE
  {
    Union(t.d, t.m);
    Union(t.d + t.m, t.x);
    Union(t.d + t.m + t.x, {iblock});
    Fewer(new_, t.d + t.m + t.x + {iblock});
    TouchedBound(off, n);
    assert |t.x| <= 1;
  }

  lemma TouchedBound(off: nat, n: nat)
    requires n <= MAXCHUNK
    ensures Touched(off, n) <= 3 + Late(off)
  {
  }

  // ---------------------------------------------------------------- whole writes

  function Min(a: nat, b: nat): nat { if a < b then a else b }

  /** The checks at the start of writei(). */
  predicate Fits(ip: Inode, off: nat, n: nat) {
    off <= ip.size && off + n <= MAXFILE * BSIZE
  }

  /** The effect of a write: n bytes of src are stored in one file from off on, r of them count
      for its size, and the other files are alone. */
  ghost predicate Wrote(v: Vol, v': Vol, i: nat, off: nat, src: seq<Byte>, n: nat, r: nat) {
    && i < |v.inos| && |v'.inos| == |v.inos| && r <= n <= |src| && off <= v.inos[i].size
    && |v.inos[i].addrs| == NDIRECT + 1 && |v'.inos[i].addrs| == NDIRECT + 1
    && v'.inos[i].size == Max(v.inos[i].size, off + r)
    && Content(v', i) == Splice(Content(v, i), off, src[..n])[..v'.inos[i].size]
    && forall j :: 0 <= j < |v.inos| && j != i ==> SameContent(v, v', j)
  }

  ghost predicate SameContent(v: Vol, v': Vol, j: nat)
    requires j < |v.inos| && j < |v'.inos|
  {
    |v.inos[j].addrs| == NDIRECT + 1 && |v'.inos[j].addrs| == NDIRECT + 1 && Content(v', j) == Content(v, j)
  }

  lemma SizeKept(v0: Vol, v: Vol, i: nat, off: nat, src: seq<Byte>, n: nat)
    requires Spliced(v0, v, i, off, src, n) && i < |v0.inos|
    ensures v.inos[i].size == v0.inos[i].size
  {
    assert SplicedFile(v0, v, i, off, src, n, i);
  }

  lemma ReachBound(off: nat, n: nat, lim: nat)
    ensures Reach(off, n, lim) <= Min(n, lim)
  {
  }

  lemma ReachAll(off: nat, n: nat, lim: nat)
    ensures Reach(off, n, lim) <= n && (Reach(off, n, lim) == n <==> lim >= n || n == 0)
  {
  }

  lemma StoredOf(v0: Vol, v: Vol, i: nat, off: nat, src: seq<Byte>, lim: nat, tot: nat, t: Tally, l0: set<nat>,
                 l: set<nat>)
    requires Stored(v0, v, i, off, src, lim, tot, t, l0, l)
    ensures i < |v0.inos| == |v.inos| && v.inos[i].size == v0.inos[i].size && |v.inos[i].addrs| == NDIRECT + 1
    ensures tot == Reach(off, |src|, lim) && t.it <= Touched(off, |src|)
    ensures TallyOk(t, Late(off), v.inos[i].addrs[NDIRECT]) && l0 <= l <= l0 + t.d + t.m + t.x
  {
    hide Filled;
    hide Backed;
    hide NotedBut;
    hide TallyOk;
    hide Slots;
    SizeKept(v0, v, i, off, src, Min(|src|, lim));
  }

  /** After the loop writei() sets the size, for the bytes that it counts. */
  lemma WroteAll(v0: Vol, v: Vol, i: nat, off: nat, src: seq<Byte>, lim: nat, tot: nat, t: Tally, l0: set<nat>,
                 l: set<nat>)
    requires Stored(v0, v, i, off, src, lim, tot, t, l0, l) && v0.inos[i].size <= MAXFILE * BSIZE
    ensures var v' := Resized(v, i, Max(v0.inos[i].size, off + tot));
            && Wrote(v0, v', i, off, src, Min(|src|, lim), tot) && NoHoles(v', i)
            && Filled(v0, v', i, Slots(Bn(off), Bn(off) + Tried(off, |src|, lim)))
            && NotedBut(v0.bl, v', l, i, off, |src|, lim) && !Short(v0, i, Bn(off), Bn(off) + Tried(off, |src|, lim))
  {
    hide Filled;
    hide Short;
    hide Slots;
    hide TallyOk;
    hide Tried;
    hide Wrote;
    hide NoHoles;
    hide Spliced;
    ReachBound(off, |src|, lim);
    hide Reach;
    var size := Max(v0.inos[i].size, off + tot);
    SplicedWrote(v0, v, i, off, src, Min(|src|, lim), tot);
    ResizedHoles(v, i, size);
    hide Backed;
    FilledEnough(v0, v, i, Bn(off), Bn(off) + Tried(off, |src|, lim));
    FilledResized(v0, v, i, size, Slots(Bn(off), Bn(off) + Tried(off, |src|, lim)));
  }

  lemma HolesSize(v: Vol, i: nat)
    requires i < |v.inos| && |v.inos[i].addrs| == NDIRECT + 1 && NoHoles(v, i)
    ensures v.inos[i].size <= MAXFILE * BSIZE
  {
  }

  lemma ResizedHoles(v: Vol, i: nat, size: nat)
    requires i < |v.inos| && |v.inos[i].addrs| == NDIRECT + 1 && size <= MAXFILE * BSIZE && Backed(v, i, size)
    ensures NoHoles(Resized(v, i, size), i)
  {
    forall bn | 0 <= bn < MAXFILE && bn * BSIZE < size
      ensures BlockNo(Resized(v, i, size), i, bn) != 0
    {
      assert BlockNo(Resized(v, i, size), i, bn) == BlockNo(v, i, bn);
    }
  }

  lemma SplicedWrote(v0: Vol, v: Vol, i: nat, off: nat, src: seq<Byte>, n: nat, r: nat)
    requires Spliced(v0, v, i, off, src, n) && i < |v0.inos| && off <= v0.inos[i].size && r <= n
    ensures Wrote(v0, Resized(v, i, Max(v0.inos[i].size, off + r)), i, off, src, n, r)
  {
    var v' := Resized(v, i, Max(v0.inos[i].size, off + r));
    SplicedContent(v0, v, i, off, src, n, r);
    forall j | 0 <= j < |v0.inos| && j != i
      ensures SameContent(v0, v', j)
    {
      SplicedOther(v0, v, i, off, src, n, Max(v0.inos[i].size, off + r), j);
    }
  }

  lemma NoneWritten(sb: Super, v: Vol, owner: Owner, i: nat, off: nat, src: seq<Byte>)
    requires Owned(sb, v, owner, {}, {}) && i < |v.inos|
    ensures off <= v.inos[i].size ==> Wrote(v, v, i, off, src, 0, 0)
  {
    if off <= v.inos[i].size {
      assert Splice(Content(v, i), off, src[..0]) == Content(v, i);
    }
  }

  lemma SpliceMore(c: seq<Byte>, c1: seq<Byte>, c2: seq<Byte>, off: nat, src: seq<Byte>, done: nat, n1: nat, n: nat,
                   r: nat)
    requires off <= |c| && done + n1 <= |src| && r <= n <= n1 && |c1| == Max(|c|, off + done)
    requires c1 == Splice(c, off, src[..done])[..|c1|] && |c2| == Max(|c1|, off + done + r)
    requires c2 == Splice(c1, off + done, src[done..done + n1][..n])[..|c2|]
    ensures |c2| == Max(|c|, off + (done + r)) && c2 == Splice(c, off, src[..done + n])[..|c2|]
  {
    assert src[done..done + n1][..n] == src[done..done + n];
    assert Splice(c, off, src[..done])[..|c1|] == Splice(c, off, src[..done]);
    SpliceTwice(c, off, src, done, n);
    hide Splice;
  }

  /** Two splices in a row are one. */
  lemma WroteMore(v0: Vol, v1: Vol, v2: Vol, i: nat, off: nat, src: seq<Byte>, done: nat, n1: nat, n: nat, r: nat)
    requires Wrote(v0, v1, i, off, src, done, done) && done + n1 <= |src|
    requires Wrote(v1, v2, i, off + done, src[done..done + n1], n, r)
    ensures Wrote(v0, v2, i, off, src, done + n, done + r)
  {
    hide Content;
    hide Splice;
    forall j | 0 <= j < |v0.inos| && j != i
      ensures SameContent(v0, v2, j)
    {
      assert SameContent(v0, v1, j) && SameContent(v1, v2, j);
    }
    hide SameContent;
    SpliceMore(Content(v0, i), Content(v1, i), Content(v2, i), off, src, done, n1, n, r);
  }

  // ---------------------------------------------------------------- what a failing copy leaves

  /** Blocks below the size are there, so that a write to them cannot panic. */
  lemma InsideEnough(v: Vol, i: nat, lo: nat, hi: nat)
    requires i < |v.inos| && |v.inos[i].addrs| == NDIRECT + 1 && Backed(v, i, hi * BSIZE) && hi <= MAXFILE
    ensures !Short(v, i, lo, hi)
  {
    forall k | k in Slots(lo, hi)
      ensures Slot(v.bl, v.inos[i], k) != 0
    {
      var bn := if k == NDIRECT then hi - 1 else if k < NDIRECT then k else k - 1;
      assert BlockNo(v, i, bn) != 0;
    }
    assert Slots(lo, hi) - InUse(v, i) == {};
  }

  /** A write of 100 bytes at the start of a file at least that long, of which 50 are readable:
      it reports that nothing was written, and the first 50 bytes of the file are overwritten. */
  method FailingCopy(fs: FileSystem, i: nat, src: seq<Byte>) returns (r: int)
    requires fs.Valid() && fs.loose == {} && fs.skip == {} && i < |fs.inodes| && |fs.inodes[i].addrs| == NDIRECT + 1
    requires NoHoles(fs.V(), i) && fs.inodes[i].size >= 100 && |src| == 100 && fs.inOp
    modifies fs
    ensures r == 0 && i < |fs.inodes| && |fs.inodes[i].addrs| == NDIRECT + 1
    ensures Content(fs.V(), i) == src[..50] + old(Content(fs.V(), i))[50..]
    ensures src[0] != old(Content(fs.V(), i))[0] ==> Content(fs.V(), i) != old(Content(fs.V(), i))
  {
    hide Owned;
    hide NotedBut;
    hide Filled;
    hide Short;
    hide FileByte;
    InsideEnough(fs.V(), i, 0, 1);
    ghost var c := Content(fs.V(), i);
    var panicked;
    r, panicked := fs.Writei(i, 0, src, 50);
    assert Splice(c, 0, src[..50])[..|c|] == src[..50] + c[50..];
  }

  /** The bytes that a write stores beyond those it counts are what the file had, as far as
      the file goes. */
  predicate Harmless(c: seq<Byte>, off: nat, src: seq<Byte>, n: nat, r: nat)
    requires n <= |src|
  {
    forall k :: r <= k < n && off + k < |c| ==> src[k] == c[off + k]
  }

  lemma ReportedBytes(c: seq<Byte>, c': seq<Byte>, off: nat, src: seq<Byte>, n: nat, r: nat)
    requires off <= |c| && r <= n <= |src| && |c'| == Max(|c|, off + r) && c' == Splice(c, off, src[..n])[..|c'|]
    ensures c' == Splice(c, off, src[..r]) <==> Harmless(c, off, src, n, r)
  {
    var d := Splice(c, off, src[..r]);
    forall o | 0 <= o < |d|
      ensures c'[o] == if off <= o < off + n then src[o - off] else c[o]
      ensures d[o] == if off <= o < off + r then src[o - off] else c[o]
    {
    }
    hide Splice;
    if c' == d {
      forall k | r <= k < n && off + k < |c|
        ensures src[k] == c[off + k]
      {
        assert c'[off + k] == d[off + k];
      }
    }
    if Harmless(c, off, src, n, r) {
      forall o | 0 <= o < |d|
        ensures c'[o] == d[o]
      {
        if off + r <= o < off + n {
          assert src[o - off] == c[off + (o - off)];
        }
      }
    }
  }

  /** A write changes the bytes that it reports, and no others, exactly when those that it stored
      beyond them happen to be equal. */
  lemma ReportedIff(v: Vol, v': Vol, i: nat, off: nat, src: seq<Byte>, n: nat, r: nat)
    requires Wrote(v, v', i, off, src, n, r)
    ensures Content(v', i) == Splice(Content(v, i), off, src[..r]) <==> Harmless(Content(v, i), off, src, n, r)
  {
    hide Content;
    hide SameContent;
    ReportedBytes(Content(v, i), Content(v', i), off, src, n, r);
  }

  /** For all source bytes the report is exact if and only if the copy does not fail inside a
      piece, or fails at the end of the file. */
  lemma ReportedAlways(c: seq<Byte>, off: nat, n: nat, lim: nat)
    requires off <= |c|
    ensures (forall src: seq<Byte> :: |src| == n ==> Harmless(c, off, src, Min(n, lim), Reach(off, n, lim)))
       <==> lim >= n || Reach(off, n, lim) == lim || off + Reach(off, n, lim) >= |c|
  {
    var r := Reach(off, n, lim);
    ReachBound(off, n, lim);
    if lim < n && r < lim && off + r < |c| {
      var x: int := c[off + r];
      var y: Byte := (x + 1) % 256;
      var src := seq(n, k => y);
      assert src[r] != c[off + r];
      assert !Harmless(c, off, src, Min(n, lim), r);
    }
  }

  lemma SpliceTwice(c: seq<Byte>, off: nat, src: seq<Byte>, done: nat, n: nat)
    requires off <= |c| && done + n <= |src|
    ensures off + done <= |Splice(c, off, src[..done])|
    ensures Splice(Splice(c, off, src[..done]), off + done, src[done..done + n]) == Splice(c, off, src[..done + n])
  {
    var once := Splice(c, off, src[..done + n]);
    var twice := Splice(Splice(c, off, src[..done]), off + done, src[done..done + n]);
    assert |twice| == |once|;
    forall k | 0 <= k < |once|
      ensures twice[k] == once[k]
    {
    }
  }

  lemma BlockBacked(v: Vol, i: nat, off: nat, tot: nat)
    requires i < |v.inos| && |v.inos[i].addrs| == NDIRECT + 1 && NoHoles(v, i) && off + tot < v.inos[i].size
    ensures Bn(off + tot) < MAXFILE && BlockNo(v, i, Bn(off + tot)) != 0
  {
    assert Bn(off + tot) * BSIZE <= off + tot;
  }

  lemma PieceByte(sb: Super, v: Vol, owner: Owner, i: nat, off: nat, tot: nat, p: nat, o: nat)
    requires Owned(sb, v, owner, {}, {}) && i < |v.inos| && off + tot <= o < off + tot + p
    requires Bn(off + tot) < MAXFILE && BlockNo(v, i, Bn(off + tot)) != 0 && Bo(off + tot) + p <= BSIZE
    ensures BlockNo(v, i, Bn(off + tot)) < |v.bl|
    ensures FileByte(v, i, o) == v.bl[BlockNo(v, i, Bn(off + tot))][Bo(off + tot) + (o - (off + tot))]
  {
    WriteBytes(sb, v, owner, {}, i, Bn(off + tot), ZeroBlock(), i, 0);
    hide Owned;
    InChunk(o, Bn(off + tot), Bo(off + tot), p);
    InChunk(off + tot, Bn(off + tot), 0, BSIZE);
  }

  /** One piece of the file, read from its block. */
  lemma PieceContent(sb: Super, v: Vol, owner: Owner, i: nat, off: nat, m: nat, tot: nat)
    requires Owned(sb, v, owner, {}, {}) && i < |v.inos| && |v.inos[i].addrs| == NDIRECT + 1
    requires off + m <= v.inos[i].size && tot < m && Bn(off + tot) < MAXFILE && BlockNo(v, i, Bn(off + tot)) != 0
    requires Bo(off + tot) + Piece(off, m, tot) <= BSIZE && tot + Piece(off, m, tot) <= m
    ensures BlockNo(v, i, Bn(off + tot)) < |v.bl|
    ensures Content(v, i)[off..off + tot + Piece(off, m, tot)]
         == Content(v, i)[off..off + tot]
            + v.bl[BlockNo(v, i, Bn(off + tot))][Bo(off + tot)..Bo(off + tot) + Piece(off, m, tot)]
  {
    hide Owned;
    hide FileByte;
    hide BlockNo;
    hide Bo;
    hide Bn;
    WriteBytes(sb, v, owner, {}, i, Bn(off + tot), ZeroBlock(), i, 0);
    var s, p, blk, c := Bo(off + tot), Piece(off, m, tot), v.bl[BlockNo(v, i, Bn(off + tot))], Content(v, i);
    hide Piece;
    forall o | off + tot <= o < off + tot + p
      ensures c[o] == blk[s + (o - (off + tot))]
    {
      PieceByte(sb, v, owner, i, off, tot, p, o);
    }
    assert c[off + tot..off + tot + p] == blk[s..s + p];
    assert c[off..off + tot + p] == c[off..off + tot] + c[off + tot..off + tot + p];
  }

  lemma PartContent(c: seq<Byte>, blk: seq<Byte>, off: nat, tot: nat, p: nat, s: nat, lim: nat)
    requires off + tot + p <= |c| && s + p <= |blk| && tot <= lim <= tot + p
    requires c[off..off + tot + p] == c[off..off + tot] + blk[s..s + p]
    ensures c[off..off + lim] == c[off..off + tot] + blk[s..s + (lim - tot)]
  {
    assert c[off..off + lim] == c[off..off + tot + p][..lim];
    assert blk[s..s + p][..lim - tot] == blk[s..s + (lim - tot)];
  }

  /** The first n addresses of inode i are clear, and nothing else differs. */
  ghost predicate Emptied(inos: seq<Inode>, inos': seq<Inode>, i: nat, n: nat) {
    && |inos'| == |inos| && i < |inos| && n <= NDIRECT + 1
    && |inos[i].addrs| == NDIRECT + 1 && |inos'[i].addrs| == NDIRECT + 1 && inos' == inos[i := inos'[i]]
    && inos'[i].size == inos[i].size
    && (forall k :: 0 <= k < n ==> inos'[i].addrs[k] == 0)
    && (forall k :: n <= k <= NDIRECT ==> inos'[i].addrs[k] == inos[i].addrs[k])
  }

  /** Block 0 is never among the blocks to free. */
  lemma LeftZero(sb: Super, v: Vol, owner: Owner, i: nat, p: nat, q: nat)
    requires Owned(sb, v, owner, {}, {})
    ensures 0 !in Left(owner, i, p, q)
  {
    assert 0 in owner ==> OwnerOk(sb, v, owner, {}, 0);
  }

  lemma SlotBound(sb: Super, v: Vol, owner: Owner, i: nat)
    requires Owned(sb, v, owner, {}, {}) && i < |v.inos|
    ensures v.inos[i].addrs[NDIRECT] < |v.bl|
  {
    var b := v.inos[i].addrs[NDIRECT];
    assert InodeOk(v, owner, i) && SlotOk(v, owner, i, NDIRECT);
    if b != 0 {
      assert OwnerOk(sb, v, owner, {}, b);
    }
  }

  lemma BitsLeft(sb: Super, v: Vol, owner: Owner, v': Vol, i: nat, b: nat)
    requires Owned(sb, v, owner, {}, {}) && Owned(sb, v', Others(owner, i), {}, {}) && b < sb.size
    ensures v'.bits[b] <==> v.bits[b] && b !in Left(owner, i, 0, 0)
  {
    assert BitOk(sb, v, owner, {}, b) && BitOk(sb, v', Others(owner, i), {}, b);
    if b in owner {
      assert OwnerOk(sb, v, owner, {}, b);
    }
  }

  /** An upper bound for the blocks that bmap() allocates. */
  function Needed(v: Vol, i: nat, bn: nat): nat
    requires i < |v.inos| && |v.inos[i].addrs| == NDIRECT + 1 && bn < MAXFILE
  {
    (if BlockNo(v, i, bn) == 0 then 1 else 0) + if bn >= NDIRECT && v.inos[i].addrs[NDIRECT] == 0 then 1 else 0
  }

  /** The indirect block, for block numbers that need it. */
  function Indirect(ip: Inode, bn: nat): set<nat>
    requires |ip.addrs| == NDIRECT + 1
  {
    if bn < NDIRECT then {} else {ip.addrs[NDIRECT]}
  }

  lemma Unchanged(sb: Super, v: Vol, owner: Owner)
    requires Owned(sb, v, owner, {}, {})
    ensures SameBytes(v, v) && Grown(v, v)
  {
  }

  lemma ShapeOf(sb: Super, v: Vol, owner: Owner, loose: set<nat>, skip: set<nat>)
    requires Owned(sb, v, owner, loose, skip)
    ensures Shape(sb, v)
  {
  }

  /** The volume after balloc() has returned b. */
  function Taken(v: Vol, b: nat): Vol
    requires b < |v.bl| && b < |v.bits|
  {
    Vol(v.bl[b := ZeroBlock()], v.inos, v.bits[b := true])
  }

  /** balloc() leaves every slot alone. */
  lemma AllocInto1(sb: Super, v: Vol, owner: Owner, b: nat, i: nat, k: nat)
    requires Owned(sb, v, owner, {}, {}) && b < sb.size && !v.bits[b] && i < |v.inos| && k < SLOTS
    ensures Owned(sb, Taken(v, b), owner, {b}, {}) && Slot(Taken(v, b).bl, v.inos[i], k) == Slot(v.bl, v.inos[i], k)
    ensures SameBytes(v, Taken(v, b))
  {
    AllocOwned(sb, v, owner, {}, {}, b);
    assert {} + {b} == {b};
    AllocBytes(sb, v, owner, {}, b);
    assert InodeOk(v, owner, i) && SlotOk(v, owner, i, NDIRECT);
  }

  lemma AllocInto2(sb: Super, v: Vol, owner: Owner, b: nat, i: nat, k: nat)
    requires Owned(sb, v, owner, {}, {}) && b < sb.size && !v.bits[b] && i < |v.inos| && k < SLOTS
    requires Slot(v.bl, v.inos[i], k) == 0 && (k > NDIRECT ==> v.inos[i].addrs[NDIRECT] != 0)
    ensures v.inos[i].addrs[NDIRECT] < |v.bl|
    ensures var v' := Attach(Taken(v, b), i, k, b); SameBytes(v, v') && Grown(v, v')
  {
    AllocInto1(sb, v, owner, b, i, k);
    var v1 := Taken(v, b);
    AttachBytes(sb, v1, owner, {b}, i, k, b);
    var v' := Attach(v1, i, k, b);
    SameTwice(v, v1, v');
    forall j | 0 <= j < |v.inos|
      ensures GrownFile(v, v', j)
    {
      AttachSlot(sb, v1, owner, {b}, i, k, b, j, 0);
      forall l | 0 <= l < SLOTS && Slot(v.bl, v.inos[j], l) != 0
        ensures Slot(v'.bl, v'.inos[j], l) == Slot(v.bl, v.inos[j], l)
      {
        AllocInto1(sb, v, owner, b, j, l);
        AttachSlot(sb, v1, owner, {b}, i, k, b, j, l);
      }
    }
  }

  // ---------------------------------------------------------------- enough free blocks

  /** balloc() into slot k fills that slot with a block that was free. */
  lemma AttachFilled(sb: Super, v: Vol, owner: Owner, b: nat, i: nat, k: nat)
    requires Owned(sb, v, owner, {}, {}) && b < sb.size && b != 0 && !v.bits[b] && i < |v.inos| && k < SLOTS
    requires Slot(v.bl, v.inos[i], k) == 0 && (k > NDIRECT ==> v.inos[i].addrs[NDIRECT] != 0)
    ensures v.inos[i].addrs[NDIRECT] < |v.bl| && Filled(v, Attach(Taken(v, b), i, k, b), i, {k})
  {
    hide Filled;
    AllocInto1(sb, v, owner, b, i, k);
    var v1 := Taken(v, b);
    AttachSlot(sb, v1, owner, {b}, i, k, b, i, k);
    var v' := Attach(v1, i, k, b);
    forall l | 0 <= l < SLOTS
      ensures Slot(v'.bl, v'.inos[i], l) == if l == k then b else Slot(v.bl, v.inos[i], l)
    {
      AllocInto1(sb, v, owner, b, i, l);
      AttachSlot(sb, v1, owner, {b}, i, k, b, i, l);
    }
    FilledOne(v, v', i, k, b);
  }

  /** balloc() into an empty slot: everything that bmap() relies on. */
  lemma Attached(sb: Super, v: Vol, owner: Owner, b: nat, i: nat, k: nat)
    requires Owned(sb, v, owner, {}, {}) && 0 < b < sb.size && !v.bits[b] && i < |v.inos| && k < SLOTS
    requires Slot(v.bl, v.inos[i], k) == 0 && (k > NDIRECT ==> v.inos[i].addrs[NDIRECT] != 0)
    ensures v.inos[i].addrs[NDIRECT] < |v.bl| && b < 0x1_0000_0000 && Taken(v, b).inos == v.inos
    ensures k <= NDIRECT ==> k < |v.inos[i].addrs|
    ensures var v' := Attach(Taken(v, b), i, k, b);
            && Owned(sb, v', owner[b := Loc(i, k)], {}, {}) && SameBytes(v, v') && Grown(v, v')
            && |v'.inos| == |v.inos| && |v'.inos[i].addrs| == NDIRECT + 1 && Slot(v'.bl, v'.inos[i], k) == b
            && Filled(v, v', i, {k})
  {
    hide Filled;
    hide SameBytes;
    hide Grown;
    ShapeOf(sb, v, owner, {}, {});
    hide Owned;
    AllocInto1(sb, v, owner, b, i, k);
    AttachOwned(sb, Taken(v, b), owner, {b}, i, k, b);
    assert {b} - {b} == {};
    AllocInto2(sb, v, owner, b, i, k);
    AttachSlot(sb, Taken(v, b), owner, {b}, i, k, b, i, k);
    AttachFilled(sb, v, owner, b, i, k);
  }

  lemma NoneFilled(v: Vol, i: nat, lo: nat)
    requires i < |v.inos| && |v.inos[i].addrs| == NDIRECT + 1
    ensures Filled(v, v, i, Slots(lo, lo + 0))
  {
    assert Slots(lo, lo + 0) == {};
    FilledNone(v, i);
  }

  /** A block needs its own slot, and the one of the indirect block if it is not direct. */
  lemma BlockSlots(bn: nat)
    requires bn < MAXFILE
    ensures bn < NDIRECT ==> Slots(bn, bn + 1) == {bn}
    ensures bn >= NDIRECT ==> Slots(bn, bn + 1) == {NDIRECT} + {bn + 1}
  {
  }

  lemma FilledAlready(v: Vol, i: nat, k: nat)
    requires i < |v.inos| && |v.inos[i].addrs| == NDIRECT + 1 && k < SLOTS
    ensures Slot(v.bl, v.inos[i], k) != 0 ==> Filled(v, v, i, {k})
    ensures Slot(v.bl, v.inos[i], k) == 0 ==> k !in InUse(v, i)
  {
    if Slot(v.bl, v.inos[i], k) != 0 {
      assert {k} - InUse(v, i) == {} && InUse(v, i) == InUse(v, i) + {k};
    }
  }

  /** Every block that changed from bl to bl' is one of l. */
  ghost predicate Noted(bl: seq<Block>, bl': seq<Block>, l: set<nat>) {
    |bl'| == |bl| && forall b :: 0 <= b < |bl| && bl'[b] != bl[b] ==> b in l
  }

  lemma NotedSame(bl: seq<Block>, l: set<nat>)
    ensures Noted(bl, bl, l)
  {
  }

  lemma NotedTwice(bl: seq<Block>, bl1: seq<Block>, bl2: seq<Block>, l1: set<nat>, l2: set<nat>)
    requires Noted(bl, bl1, l1) && l1 <= l2 && Noted(bl1, bl2, l2)
    ensures Noted(bl, bl2, l2)
  {
  }

  /** Slot k of inode i has been read, and filled if it was empty and a block was free: addr
      is the block, 0 if there is none; maps are the bitmap blocks logged on the way. */
  ghost predicate SlotDone(v: Vol, v': Vol, i: nat, k: nat, addr: nat, l: set<nat>, l': set<nat>, maps: set<nat>) {
    && i < |v.inos| == |v'.inos| && |v.inos[i].addrs| == NDIRECT + 1 && |v'.inos[i].addrs| == NDIRECT + 1 && k < SLOTS
    && (Slot(v.bl, v.inos[i], k) != 0 ==> v' == v && l' == l && addr != 0 && maps == {})
    && SameBytes(v, v') && Grown(v, v')
    && (addr == 0 ==> v' == v && l' == l && maps == {} && FreeBits(v.bits) == {} && k !in InUse(v, i))
    && (addr != 0 ==> addr == Slot(v'.bl, v'.inos[i], k) && Filled(v, v', i, {k}))
    && |maps| <= 1 && l' <= l + maps + {addr} + (if k > NDIRECT then {v'.inos[i].addrs[NDIRECT]} else {})
    && (k != NDIRECT ==> v'.inos[i].addrs[NDIRECT] == v.inos[i].addrs[NDIRECT])
    && l <= l' && Noted(v.bl, v'.bl, l')
  }

  /** The same for block bn of file i: a block that is there changes nothing, new ones change no
      byte, and there is no block exactly when fewer are free than it needs. */
  ghost predicate BlockDone(v: Vol, v': Vol, i: nat, bn: nat, addr: nat, l: set<nat>, l': set<nat>, maps: set<nat>) {
    && i < |v.inos| == |v'.inos| && |v.inos[i].addrs| == NDIRECT + 1 && |v'.inos[i].addrs| == NDIRECT + 1
    && bn < MAXFILE
    && (BlockNo(v, i, bn) != 0 ==> v' == v && l' == l && addr != 0)
    && SameBytes(v, v') && Grown(v, v')
    && (addr != 0 ==> addr == BlockNo(v', i, bn) && Filled(v, v', i, Slots(bn, bn + 1)))
    && (addr == 0 ==> Short(v, i, bn, bn + 1))
    && |maps| <= Needed(v, i, bn) && l' <= l + maps + {addr} + Indirect(v'.inos[i], bn)
    && l <= l' && Noted(v.bl, v'.bl, l')
  }

  lemma BlockThere(v: Vol, v': Vol, i: nat, bn: nat, addr: nat, l: set<nat>, l': set<nat>, maps: set<nat>)
    requires BlockDone(v, v', i, bn, addr, l, l', maps) && BlockNo(v, i, bn) != 0
    ensures v' == v && l' == l && addr == BlockNo(v, i, bn)
  {
    hide SameBytes;
    hide Grown;
    hide Filled;
    hide Short;
    hide Noted;
  }

  lemma DirectDone(v: Vol, v': Vol, i: nat, bn: nat, addr: nat, l: set<nat>, l': set<nat>, maps: set<nat>)
    requires SlotDone(v, v', i, bn, addr, l, l', maps) && bn < NDIRECT
    ensures BlockDone(v, v', i, bn, addr, l, l', maps) && (BlockNo(v, i, bn) != 0 ==> v' == v)
  {
    hide SameBytes;
    hide Grown;
    hide Filled;
    hide Short;
    BlockSlots(bn);
    FilledNone(v, i);
    if addr == 0 {
      NoneFree(v, v, i, bn, {}, bn);
    }
  }

  lemma IndirectThere(v: Vol, v1: Vol, i: nat, d: nat, l: set<nat>, l1: set<nat>, m1: set<nat>)
    requires SlotDone(v, v1, i, NDIRECT, d, l, l1, m1) && d != 0
    ensures i < |v1.inos| && |v1.inos[i].addrs| == NDIRECT + 1 && v1.inos[i].addrs[NDIRECT] == d
  {
  }

  lemma IndirectFails(v: Vol, v': Vol, i: nat, bn: nat, l: set<nat>, l': set<nat>, maps: set<nat>)
    requires SlotDone(v, v', i, NDIRECT, 0, l, l', maps) && NDIRECT <= bn < MAXFILE
    ensures BlockDone(v, v', i, bn, 0, l, l', maps) && v' == v
  {
    hide SameBytes;
    hide Grown;
    hide Filled;
    hide Short;
    BlockSlots(bn);
    FilledNone(v, i);
    IndirectNeeds(v, i, bn);
    NoneFree(v, v, i, bn, {}, NDIRECT);
  }

  /** First the indirect block, then its entry. */
  lemma IndirectDone(v: Vol, v1: Vol, v2: Vol, i: nat, bn: nat, d: nat, addr: nat, l: set<nat>, l1: set<nat>,
                     l2: set<nat>, m1: set<nat>, m2: set<nat>)
    requires NDIRECT <= bn < MAXFILE && d != 0 && SlotDone(v, v1, i, NDIRECT, d, l, l1, m1)
    requires SlotDone(v1, v2, i, bn + 1, addr, l1, l2, m2)
    ensures BlockDone(v, v2, i, bn, addr, l, l2, m1 + m2) && (BlockNo(v, i, bn) != 0 ==> v1 == v && v2 == v1)
  {
    hide SameBytes;
    hide Grown;
    hide Filled;
    hide Short;
    hide Slots;
    hide Slot;
    hide InUse;
    hide FreeBits;
    hide Noted;
    hide BlockNo;
    hide Needed;
    IndirectNeeds(v, i, bn);
    IndirectNeeds(v2, i, bn);
    IndirectNeeds(v1, i, bn);
    GrownSlot(v, v1, i, bn + 1);
    SameTwice(v, v1, v2);
    GrownTwice(v, v1, v2);
    NotedTwice(v.bl, v1.bl, v2.bl, l1, l2);
    IndirectMaps(v, v1, v2, i, bn, d, addr, l, l1, l2, m1, m2);
    IndirectFilled(v, v1, v2, i, bn, d, addr, l, l1, l2, m1, m2);
  }

  lemma IndirectMaps(v: Vol, v1: Vol, v2: Vol, i: nat, bn: nat, d: nat, addr: nat, l: set<nat>, l1: set<nat>,
                     l2: set<nat>, m1: set<nat>, m2: set<nat>)
    requires NDIRECT <= bn < MAXFILE && d != 0 && SlotDone(v, v1, i, NDIRECT, d, l, l1, m1)
    requires SlotDone(v1, v2, i, bn + 1, addr, l1, l2, m2)
    ensures |m1 + m2| <= Needed(v, i, bn) && l2 <= l + (m1 + m2) + {addr} + Indirect(v2.inos[i], bn)
  {
    hide SameBytes;
    hide Grown;
    hide Filled;
    hide Slot;
    hide InUse;
    hide FreeBits;
    hide Noted;
    hide BlockNo;
    hide Needed;
    IndirectNeeds(v, i, bn);
    IndirectNeeds(v1, i, bn);
    GrownSlot(v, v1, i, bn + 1);
    Union(m1, m2);
    LoggedBoth(l, l1, l2, m1, m2, d, addr);
  }

  lemma IndirectFilled(v: Vol, v1: Vol, v2: Vol, i: nat, bn: nat, d: nat, addr: nat, l: set<nat>, l1: set<nat>,
                       l2: set<nat>, m1: set<nat>, m2: set<nat>)
    requires NDIRECT <= bn < MAXFILE && d != 0 && SlotDone(v, v1, i, NDIRECT, d, l, l1, m1)
    requires SlotDone(v1, v2, i, bn + 1, addr, l1, l2, m2)
    ensures addr != 0 ==> Filled(v, v2, i, Slots(bn, bn + 1))
    ensures addr == 0 ==> Short(v, i, bn, bn + 1)
  {
    hide SameBytes;
    hide Grown;
    hide Filled;
    hide Short;
    hide Slots;
    hide Slot;
    hide InUse;
    hide FreeBits;
    hide Noted;
    BlockSlots(bn);
    if addr == 0 {
      NoneFree(v, v1, i, bn, {NDIRECT}, bn + 1);
    } else {
      FilledMore(v, v1, v2, i, {NDIRECT}, {bn + 1});
    }
  }

  /** Without an indirect block the entries of file blocks beyond the direct ones are missing. */
  lemma IndirectNeeds(v: Vol, i: nat, bn: nat)
    requires i < |v.inos| && |v.inos[i].addrs| == NDIRECT + 1 && NDIRECT <= bn < MAXFILE
    ensures BlockNo(v, i, bn) == Slot(v.bl, v.inos[i], bn + 1)
            && Slot(v.bl, v.inos[i], NDIRECT) == v.inos[i].addrs[NDIRECT]
    ensures BlockNo(v, i, bn) != 0 ==> v.inos[i].addrs[NDIRECT] != 0
    ensures Needed(v, i, bn) == (if Slot(v.bl, v.inos[i], bn + 1) == 0 then 1 else 0)
                              + (if Slot(v.bl, v.inos[i], NDIRECT) == 0 then 1 else 0)
  {
  }

  lemma LoggedBoth(l: set<nat>, l1: set<nat>, l2: set<nat>, m1: set<nat>, m2: set<nat>, d: nat, addr: nat)
    requires l1 <= l + m1 + {d} && l2 <= l1 + m2 + {addr} + {d}
    ensures l2 <= l + (m1 + m2) + {addr} + {d}
  {
  }

  lemma GrownSlot(v: Vol, v1: Vol, i: nat, k: nat)
    requires Grown(v, v1) && i < |v.inos| && k < SLOTS
    ensures |v1.inos| == |v.inos| && |v.inos[i].addrs| == NDIRECT + 1 && |v1.inos[i].addrs| == NDIRECT + 1
    ensures Slot(v.bl, v.inos[i], k) != 0 ==> Slot(v1.bl, v1.inos[i], k) == Slot(v.bl, v.inos[i], k)
  {
    assert GrownFile(v, v1, i);
  }

  /** bmap() stops at an empty slot that it needs, with no block left. */
  lemma NoneFree(v: Vol, v1: Vol, i: nat, bn: nat, ks: set<nat>, k: nat)
    requires Filled(v, v1, i, ks) && bn < MAXFILE && k < SLOTS && ks <= Slots(bn, bn + 1) && k in Slots(bn, bn + 1)
    requires FreeBits(v1.bits) == {} && k !in InUse(v1, i)
    ensures Short(v, i, bn, bn + 1)
  {
    assert k !in ks;
    Fewer((ks - InUse(v, i)) + {k}, Slots(bn, bn + 1) - InUse(v, i));
  }

  lemma FilledChunk(sb: Super, v0: Vol, v: Vol, owner: Owner, i: nat, off: nat, src: seq<Byte>, tot: nat, m: nat,
                    ks: set<nat>)
    requires Filled(v0, v, i, ks) && Owned(sb, v, owner, {}, {}) && i < |v.inos| && Bn(off + tot) < MAXFILE
    requires tot + m <= |src| && Bo(off + tot) + m <= BSIZE && BlockNo(v, i, Bn(off + tot)) != 0
    ensures BlockNo(v, i, Bn(off + tot)) < |v.bl| && Filled(v0, PutChunk(v, i, off, src, tot, m), i, ks)
  {
    var b := BlockNo(v, i, Bn(off + tot));
    WriteBytes(sb, v, owner, {}, i, Bn(off + tot), v.bl[0], i, 0);
    WriteOwned(sb, v, owner, {}, b, v.bl[0]);
    var v' := PutChunk(v, i, off, src, tot, m);
    assert v.inos[i].addrs[NDIRECT] != b;
    FilledSame(v0, v, v', i, ks);
  }

  // ---------------------------------------------------------------- the loop of writei()

  /** tot bytes have been copied, in whole pieces, all of them logged; l0 is what was logged
      before the loop and l what is logged now. */
  ghost predicate Copied(v0: Vol, v: Vol, i: nat, off: nat, src: seq<Byte>, lim: nat, tot: nat, t: Tally,
                         l0: set<nat>, l: set<nat>) {
    && i < |v0.inos| == |v.inos| && |v0.inos[i].addrs| == NDIRECT + 1 && |v.inos[i].addrs| == NDIRECT + 1
    && off <= v0.inos[i].size && off + |src| <= MAXFILE * BSIZE
    && Spliced(v0, v, i, off, src, tot) && Backed(v, i, Max(v0.inos[i].size, off + tot))
    && TallyOk(t, Late(off), v.inos[i].addrs[NDIRECT]) && l0 <= l <= l0 + t.d + t.m + t.x
    && Progress(off, |src|, lim, tot, t.it) && t.it <= Touched(off, |src|)
    && Filled(v0, v, i, Slots(Bn(off), Bn(off) + t.it)) && Noted(v0.bl, v.bl, l)
  }

  /** The same, after bmap() has given the block of the next piece. */
  ghost predicate Touching(v0: Vol, v: Vol, i: nat, off: nat, src: seq<Byte>, lim: nat, tot: nat, t: Tally, addr: nat,
                           l0: set<nat>, l: set<nat>) {
    && i < |v0.inos| == |v.inos| && |v0.inos[i].addrs| == NDIRECT + 1 && |v.inos[i].addrs| == NDIRECT + 1
    && off <= v0.inos[i].size && off + |src| <= MAXFILE * BSIZE && tot < |src| && t.it >= 1
    && Bn(off + tot) < MAXFILE && BlockNo(v, i, Bn(off + tot)) == addr && addr != 0 && addr in t.d
    && Spliced(v0, v, i, off, src, tot) && Backed(v, i, Max(v0.inos[i].size, off + tot))
    && TallyOk(t, Late(off), v.inos[i].addrs[NDIRECT]) && l0 <= l <= l0 + t.d + t.m + t.x
    && Progress(off, |src|, lim, tot, t.it - 1) && t.it <= Touched(off, |src|)
    && Filled(v0, v, i, Slots(Bn(off), Bn(off) + t.it)) && Noted(v0.bl, v.bl, l)
  }

  /** Every block that changed is one of l, except the block at which a copy failed. */
  ghost predicate NotedBut(bl: seq<Block>, v: Vol, l: set<nat>, i: nat, off: nat, n: nat, lim: nat) {
    && i < |v.inos| && |v.inos[i].addrs| == NDIRECT + 1 && |v.bl| == |bl|
    && forall b :: 0 <= b < |bl| && v.bl[b] != bl[b] ==>
         b in l || (lim < n && Bn(off + lim) < MAXFILE && b == BlockNo(v, i, Bn(off + lim)))
  }

  /** The loop is done: all readable bytes are stored, and tot of them are counted. */
  ghost predicate Stored(v0: Vol, v: Vol, i: nat, off: nat, src: seq<Byte>, lim: nat, tot: nat, t: Tally,
                         l0: set<nat>, l: set<nat>) {
    && i < |v0.inos| == |v.inos| && |v0.inos[i].addrs| == NDIRECT + 1 && |v.inos[i].addrs| == NDIRECT + 1
    && off <= v0.inos[i].size && off + |src| <= MAXFILE * BSIZE && tot == Reach(off, |src|, lim)
    && Spliced(v0, v, i, off, src, Min(|src|, lim)) && Backed(v, i, Max(v0.inos[i].size, off + tot))
    && TallyOk(t, Late(off), v.inos[i].addrs[NDIRECT]) && l0 <= l <= l0 + t.d + t.m + t.x
    && t.it <= Touched(off, |src|) && Filled(v0, v, i, Slots(Bn(off), Bn(off) + Tried(off, |src|, lim)))
    && NotedBut(v0.bl, v, l, i, off, |src|, lim)
  }

  lemma CopiedNone(sb: Super, v: Vol, owner: Owner, i: nat, off: nat, src: seq<Byte>, lim: nat, l: set<nat>)
    requires Owned(sb, v, owner, {}, {}) && i < |v.inos| && |v.inos[i].addrs| == NDIRECT + 1 && NoHoles(v, i)
    requires off <= v.inos[i].size && off + |src| <= MAXFILE * BSIZE
    ensures Copied(v, v, i, off, src, lim, 0, Tally({}, {}, {}, 0, 0), l, l)
  {
    hide Spliced;
    hide Backed;
    hide Filled;
    hide Slots;
    hide Owned;
    NothingWritten(sb, v, owner, i, off, src);
    ReachStart(off, |src|, lim);
    NoneFilled(v, i, Bn(off));
  }

  /** What bmap() needs to know of the next piece. */
  lemma CopiedOf(v0: Vol, v: Vol, i: nat, off: nat, src: seq<Byte>, lim: nat, tot: nat, t: Tally, l0: set<nat>,
                 l: set<nat>)
    requires Copied(v0, v, i, off, src, lim, tot, t, l0, l) && tot < |src| && Bn(off + tot) < MAXFILE
    ensures t.it == 0 <==> tot == 0
    ensures tot == 0 && Late(off) == 1 ==> BlockNo(v, i, Bn(off + tot)) != 0
    ensures TallyOk(t, Late(off), v.inos[i].addrs[NDIRECT]) && l <= l0 + t.d + t.m + t.x
  {
    hide Spliced;
    hide Filled;
    hide Noted;
    hide TallyOk;
    hide Slots;
    FirstBacked(v, i, v0.inos[i].size, off, tot);
    hide Backed;
    hide BlockNo;
    ProgressTouch(off, |src|, lim, tot, t.it);
  }

  /** The next piece has no block and there is none for it. */
  lemma CopiedShort(v0: Vol, v: Vol, i: nat, off: nat, src: seq<Byte>, lim: nat, tot: nat, t: Tally, l0: set<nat>,
                    l: set<nat>)
    requires Copied(v0, v, i, off, src, lim, tot, t, l0, l) && tot < |src|
    requires Short(v, i, Bn(off + tot), Bn(off + tot) + 1)
    ensures Short(v0, i, Bn(off), Bn(off) + Tried(off, |src|, lim))
  {
    hide Spliced;
    hide Backed;
    hide Filled;
    hide Short;
    hide Noted;
    hide TallyOk;
    hide Slots;
    ProgressTouch(off, |src|, lim, tot, t.it);
    var lo := Bn(off);
    var mid := lo + t.it;
    hide Bn;
    FilledShort(v0, v, i, lo, mid, mid, mid + 1, lo + Tried(off, |src|, lim));
  }

  lemma CopiedTouched(v0: Vol, v: Vol, v': Vol, i: nat, off: nat, src: seq<Byte>, lim: nat, tot: nat, t: Tally,
                      t': Tally, addr: nat, l0: set<nat>, l: set<nat>, l': set<nat>)
    requires Copied(v0, v, i, off, src, lim, tot, t, l0, l) && tot < |src| && Bn(off + tot) < MAXFILE
    requires SameBytes(v, v') && Grown(v, v') && |v'.inos| == |v.inos| && |v'.inos[i].addrs| == NDIRECT + 1
    requires addr == BlockNo(v', i, Bn(off + tot)) && addr != 0 && addr in t'.d && t'.it == t.it + 1
    requires TallyOk(t', Late(off), v'.inos[i].addrs[NDIRECT]) && l' <= l0 + t'.d + t'.m + t'.x
    requires Filled(v, v', i, Slots(Bn(off + tot), Bn(off + tot) + 1)) && l <= l' && Noted(v.bl, v'.bl, l')
    ensures Touching(v0, v', i, off, src, lim, tot, t', addr, l0, l')
  {
    hide Spliced;
    hide Backed;
    hide Filled;
    hide SameBytes;
    hide Grown;
    hide Noted;
    hide TallyOk;
    hide Slots;
    hide BlockNo;
    hide Late;
    ProgressTouch(off, |src|, lim, tot, t.it);
    hide Progress;
    hide Touched;
    var lo := Bn(off);
    var mid := lo + t.it;
    FilledMore(v0, v, v', i, Slots(lo, mid), Slots(mid, mid + 1));
    SlotsJoin(lo, mid, mid, mid + 1);
    SplicedSame(v0, v, v', i, off, src, tot);
    BackedGrown(v, v', i, Max(v0.inos[i].size, off + tot));
    NotedTwice(v0.bl, v.bl, v'.bl, l, l');
  }

  lemma TouchingOf(v0: Vol, v: Vol, i: nat, off: nat, src: seq<Byte>, lim: nat, tot: nat, t: Tally, addr: nat,
                   l0: set<nat>, l: set<nat>)
    requires Touching(v0, v, i, off, src, lim, tot, t, addr, l0, l)
    ensures tot <= lim
  {
  }

  /** Bytes of the next piece stored: all of it, or as many as are readable. */
  lemma TouchingPut(sb: Super, v0: Vol, v: Vol, owner: Owner, i: nat, off: nat, src: seq<Byte>, lim: nat, tot: nat,
                    t: Tally, addr: nat, l0: set<nat>, l: set<nat>, m: nat)
    requires Touching(v0, v, i, off, src, lim, tot, t, addr, l0, l) && Owned(sb, v, owner, {}, {})
    requires tot + m <= |src| && Bo(off + tot) + m <= BSIZE
    ensures addr < |v.bl|
    ensures var v' := PutChunk(v, i, off, src, tot, m);
            && Spliced(v0, v', i, off, src, tot + m) && Grown(v, v') && Backed(v', i, Max(v0.inos[i].size, off + tot))
            && Filled(v0, v', i, Slots(Bn(off), Bn(off) + t.it)) && Noted(v0.bl, v'.bl, l + {addr})
            && v'.inos == v.inos && v'.bl == v.bl[addr := v'.bl[addr]]
  {
    hide Spliced;
    hide Backed;
    hide Filled;
    hide Grown;
    hide TallyOk;
    hide Slots;
    hide BlockNo;
    hide Progress;
    hide Touched;
    hide Bo;
    hide Bn;
    hide Late;
    hide Owned;
    SplicedChunk(sb, v0, v, owner, i, off, src, tot, m);
    ChunkOwned(sb, v, owner, i, off, src, tot, m);
    FilledChunk(sb, v0, v, owner, i, off, src, tot, m, Slots(Bn(off), Bn(off) + t.it));
    BackedGrown(v, PutChunk(v, i, off, src, tot, m), i, Max(v0.inos[i].size, off + tot));
  }

  /** A whole piece stored, and its block logged. */
  lemma CopiedMore(sb: Super, v0: Vol, v: Vol, owner: Owner, i: nat, off: nat, src: seq<Byte>, lim: nat, tot: nat,
                   t: Tally, addr: nat, l0: set<nat>, l: set<nat>)
    requires Touching(v0, v, i, off, src, lim, tot, t, addr, l0, l) && Owned(sb, v, owner, {}, {})
    requires tot + Piece(off, |src|, tot) <= lim
    ensures addr < |v.bl| && Bo(off + tot) + Piece(off, |src|, tot) <= BSIZE
    ensures var m := Piece(off, |src|, tot);
            Copied(v0, PutChunk(v, i, off, src, tot, m), i, off, src, lim, tot + m, t, l0, l + {addr})
  {
    hide Spliced;
    hide Filled;
    hide Grown;
    hide TallyOk;
    hide Slots;
    hide Noted;
    hide Owned;
    hide Late;
    PieceBound(off, |src|, tot);
    ProgressStep(off, |src|, lim, tot, t.it - 1);
    var m := Piece(off, |src|, tot);
    TouchingPut(sb, v0, v, owner, i, off, src, lim, tot, t, addr, l0, l, m);
    MoreBacked(v, i, v0.inos[i].size, off, tot, m);
    hide Piece;
    hide Backed;
    hide BlockNo;
    hide Progress;
    hide Touched;
    hide Bo;
    hide Bn;
    hide PutChunk;
    BackedGrown(v, PutChunk(v, i, off, src, tot, m), i, Max(v0.inos[i].size, off + (tot + m)));
  }

  lemma MoreBacked(v: Vol, i: nat, size: nat, off: nat, tot: nat, m: nat)
    requires i < |v.inos| && |v.inos[i].addrs| == NDIRECT + 1 && Backed(v, i, Max(size, off + tot))
    requires Bn(off + tot) < MAXFILE && BlockNo(v, i, Bn(off + tot)) != 0 && Bo(off + tot) + m <= BSIZE
    ensures Backed(v, i, Max(size, off + (tot + m)))
  {
    hide Backed;
    hide BlockNo;
    hide Bn;
    hide Bo;
    MaxTwice(size, off, tot, m);
    BackedMore(v, i, Max(size, off + tot), off + tot, m);
  }

  /** The readable part of a piece stored, and its block not logged. */
  lemma StoredPart(sb: Super, v0: Vol, v: Vol, owner: Owner, i: nat, off: nat, src: seq<Byte>, lim: nat, tot: nat,
                   t: Tally, addr: nat, l0: set<nat>, l: set<nat>)
    requires Touching(v0, v, i, off, src, lim, tot, t, addr, l0, l) && Owned(sb, v, owner, {}, {})
    requires tot <= lim < tot + Piece(off, |src|, tot)
    ensures addr < |v.bl| && Bo(off + tot) + (lim - tot) <= BSIZE
    ensures Stored(v0, PutChunk(v, i, off, src, tot, lim - tot), i, off, src, lim, tot, t, l0, l)
  {
    hide Spliced;
    hide Backed;
    hide Filled;
    hide Grown;
    hide TallyOk;
    hide Slots;
    hide Noted;
    hide Owned;
    hide Late;
    hide BlockNo;
    PieceBound(off, |src|, tot);
    ProgressStop(off, |src|, lim, tot, t.it - 1);
    TouchingPut(sb, v0, v, owner, i, off, src, lim, tot, t, addr, l0, l, lim - tot);
    SameBlock(off, |src|, tot, lim);
    hide Piece;
    hide Progress;
    hide Touched;
    hide Tried;
    hide Reach;
    hide Bo;
    hide Bn;
    var v' := PutChunk(v, i, off, src, tot, lim - tot);
    hide PutChunk;
    GrownBlock(v, v', i, Bn(off + tot));
    NotedPart(v0.bl, v', l, i, off, |src|, lim, addr);
  }

  lemma SameBlock(off: nat, n: nat, tot: nat, lim: nat)
    requires tot < n && tot <= lim < tot + Piece(off, n, tot)
    ensures Bn(off + lim) == Bn(off + tot)
  {
  }

  lemma GrownBlock(v: Vol, v': Vol, i: nat, bn: nat)
    requires Grown(v, v') && i < |v.inos| && bn < MAXFILE && |v.inos[i].addrs| == NDIRECT + 1
    ensures |v'.inos| == |v.inos| && |v'.inos[i].addrs| == NDIRECT + 1
    ensures BlockNo(v, i, bn) != 0 ==> BlockNo(v', i, bn) == BlockNo(v, i, bn)
  {
    GrownSlot(v, v', i, SlotOf(bn));
  }

  lemma NotedPart(bl: seq<Block>, v: Vol, l: set<nat>, i: nat, off: nat, n: nat, lim: nat, addr: nat)
    requires Noted(bl, v.bl, l + {addr}) && i < |v.inos| && |v.inos[i].addrs| == NDIRECT + 1 && lim < n
    requires Bn(off + lim) < MAXFILE && addr == BlockNo(v, i, Bn(off + lim))
    ensures NotedBut(bl, v, l, i, off, n, lim)
  {
  }

  lemma NotedMore(bl: seq<Block>, v: Vol, l: set<nat>, l': set<nat>, i: nat, off: nat, n: nat, lim: nat)
    requires NotedBut(bl, v, l, i, off, n, lim) && l <= l'
    ensures NotedBut(bl, v, l', i, off, n, lim)
  {
  }

  lemma CopiedAll(v0: Vol, v: Vol, i: nat, off: nat, src: seq<Byte>, lim: nat, t: Tally, l0: set<nat>, l: set<nat>)
    requires Copied(v0, v, i, off, src, lim, |src|, t, l0, l)
    ensures Stored(v0, v, i, off, src, lim, |src|, t, l0, l)
  {
    hide Spliced;
    hide Backed;
    hide Filled;
    hide TallyOk;
    hide Slots;
    hide BlockNo;
    ProgressEnd(off, |src|, lim, |src|, t.it);
  }

  lemma FilledResized(v0: Vol, v: Vol, i: nat, n: nat, ks: set<nat>)
    requires Filled(v0, v, i, ks)
    ensures Filled(v0, Resized(v, i, n), i, ks)
  {
    FilledSame(v0, v, Resized(v, i, n), i, ks);
  }

  lemma NoneTouched(v: Vol, i: nat, off: nat)
    requires i < |v.inos| && |v.inos[i].addrs| == NDIRECT + 1
    ensures Filled(v, v, i, Slots(Bn(off), Bn(off) + Touched(off, 0)))
  {
    NoneFilled(v, i, Bn(off));
  }

  lemma WholeChunks(left: nat, done: nat)
    requires done <= left && done % MAXCHUNK == 0
    ensures left < done + MAXCHUNK ==> Whole(left) == done
    ensures left >= done + MAXCHUNK ==> Whole(left) >= done + MAXCHUNK
  {
    assert done == done / 3072 * 3072;
  }

  /** The chunk at done fits if it is within Room, and otherwise done is all of Room. */
  lemma RoomAt(off: nat, done: nat, n: nat)
    requires done < n && done % MAXCHUNK == 0 && off + done <= MAXFILE * BSIZE
    ensures var n1 := Min(n - done, MAXCHUNK);
            if off + done + n1 <= MAXFILE * BSIZE then done + n1 <= Room(off, n) else Room(off, n) == done
  {
    hide Whole;
    WholeChunks(MAXFILE * BSIZE - off, done);
  }

  /** The blocks of a chunk are among those of the whole write, next to the ones already done. */
  lemma ChunkBlocks(off: nat, done: nat, n1: nat, lim: nat, n: nat)
    requires 0 < n1 && done + n1 <= n && done <= lim
    ensures Bn(off) <= Bn(off + done) <= Bn(off) + Touched(off, done)
    ensures Bn(off) + Touched(off, done) <= Bn(off + done) + Tried(off + done, n1, lim - done)
    ensures Bn(off + done) + Tried(off + done, n1, lim - done) <= Bn(off) + Tried(off, n, lim)
    ensures Bn(off + done) + Tried(off + done, n1, lim - done)
         == Bn(off) + if lim - done >= n1 then Touched(off, done + n1) else Tried(off, n, lim)
  {
  }

  /** filewrite() has written done bytes, in whole chunks or all of them. */
  ghost predicate Writing(v0: Vol, v: Vol, i: nat, off: nat, src: seq<Byte>, done: nat, lim: nat) {
    && Wrote(v0, v, i, off, src, done, done) && Filled(v0, v, i, Slots(Bn(off), Bn(off) + Touched(off, done)))
    && done <= lim && (done == |src| || done % MAXCHUNK == 0) && off + done <= MAXFILE * BSIZE
  }

  lemma WritingNone(sb: Super, v: Vol, owner: Owner, i: nat, off: nat, src: seq<Byte>, lim: nat)
    requires Owned(sb, v, owner, {}, {}) && i < |v.inos| && |v.inos[i].addrs| == NDIRECT + 1 && NoHoles(v, i)
    ensures off <= v.inos[i].size ==> Writing(v, v, i, off, src, 0, lim)
  {
    NoneWritten(sb, v, owner, i, off, src);
    NoneTouched(v, i, off);
  }

  lemma WritingOf(v0: Vol, v: Vol, i: nat, off: nat, src: seq<Byte>, done: nat, lim: nat)
    requires i < |v0.inos| && i < |v.inos|
    ensures Writing(v0, v, i, off, src, done, lim) ==>
              done <= lim && off <= v0.inos[i].size && off + done <= MAXFILE * BSIZE && off + done <= v.inos[i].size
  {
  }

  /** A chunk for which there are too few blocks. */
  lemma ChunkShort(v0: Vol, v1: Vol, i: nat, off: nat, src: seq<Byte>, done: nat, lim: nat)
    requires Writing(v0, v1, i, off, src, done, lim) && done < |src|
    requires var n1 := Min(|src| - done, MAXCHUNK);
             && off + done + n1 <= MAXFILE * BSIZE
             && Short(v1, i, Bn(off + done), Bn(off + done) + Tried(off + done, n1, lim - done))
    ensures i < |v0.inos| && |v0.inos[i].addrs| == NDIRECT + 1 && Short(v0, i, Bn(off), LookEnd(off, |src|, lim))
  {
    hide Short;
    hide Filled;
    hide Slots;
    hide Touched;
    hide Tried;
    hide Bn;
    hide Room;
    RoomAt(off, done, |src|);
    var n1 := Min(|src| - done, MAXCHUNK);
    ChunkBlocks(off, done, n1, lim, Room(off, |src|));
    FilledShort(v0, v1, i, Bn(off), Bn(off) + Touched(off, done), Bn(off + done),
                Bn(off + done) + Tried(off + done, n1, lim - done), LookEnd(off, |src|, lim));
  }

  /** After a chunk that fits: it is filled, or as much of it as is looked at. */
  lemma ChunkFilled(v0: Vol, v1: Vol, v2: Vol, i: nat, off: nat, done: nat, lim: nat, n: nat)
    requires done < n && done <= lim && done % MAXCHUNK == 0
    requires Filled(v0, v1, i, Slots(Bn(off), Bn(off) + Touched(off, done)))
    requires var n1 := Min(n - done, MAXCHUNK);
             && off + done + n1 <= MAXFILE * BSIZE
             && Filled(v1, v2, i, Slots(Bn(off + done), Bn(off + done) + Tried(off + done, n1, lim - done)))
    ensures var n1 := Min(n - done, MAXCHUNK);
            && (lim - done >= n1 ==> Filled(v0, v2, i, Slots(Bn(off), Bn(off) + Touched(off, done + n1))))
            && (lim - done < n1 ==> Filled(v0, v2, i, Slots(Bn(off), LookEnd(off, n, lim))))
  {
    hide Filled;
    hide Slots;
    hide Touched;
    hide Tried;
    hide Bn;
    hide Room;
    RoomAt(off, done, n);
    var n1 := Min(n - done, MAXCHUNK);
    ChunkBlocks(off, done, n1, lim, Room(off, n));
    FilledMore(v0, v1, v2, i, Slots(Bn(off), Bn(off) + Touched(off, done)),
               Slots(Bn(off + done), Bn(off + done) + Tried(off + done, n1, lim - done)));
    SlotsJoin(Bn(off), Bn(off) + Touched(off, done), Bn(off + done),
              Bn(off + done) + Tried(off + done, n1, lim - done));
  }

  /** A chunk that fits and is readable. */
  lemma ChunkWhole(v0: Vol, v1: Vol, v2: Vol, i: nat, off: nat, src: seq<Byte>, done: nat, lim: nat, n1: nat)
    requires Writing(v0, v1, i, off, src, done, lim) && done < |src| && n1 == Min(|src| - done, MAXCHUNK)
    requires off + done + n1 <= MAXFILE * BSIZE && lim - done >= n1
    requires Wrote(v1, v2, i, off + done, src[done..done + n1], n1, n1)
    requires Filled(v1, v2, i, Slots(Bn(off + done), Bn(off + done) + Tried(off + done, n1, lim - done)))
    ensures Writing(v0, v2, i, off, src, done + n1, lim)
  {
    hide Wrote;
    hide Filled;
    hide Slots;
    hide Touched;
    hide Tried;
    hide Bn;
    hide LookEnd;
    WroteMore(v0, v1, v2, i, off, src, done, n1, n1, n1);
    ChunkFilled(v0, v1, v2, i, off, done, lim, |src|);
    NextChunk(done, |src|);
  }

  /** A chunk that fits and is readable in part is the last, and there were blocks enough. */
  lemma ChunkPart(v0: Vol, v1: Vol, v2: Vol, i: nat, off: nat, src: seq<Byte>, done: nat, lim: nat, n1: nat)
    requires Writing(v0, v1, i, off, src, done, lim) && done < |src| && n1 == Min(|src| - done, MAXCHUNK)
    requires off + done + n1 <= MAXFILE * BSIZE && lim - done < n1
    requires Wrote(v1, v2, i, off + done, src[done..done + n1], lim - done, Reach(off + done, n1, lim - done))
    requires Filled(v1, v2, i, Slots(Bn(off + done), Bn(off + done) + Tried(off + done, n1, lim - done)))
    ensures Ended(v0, v2, i, off, src, done + Reach(off + done, n1, lim - done), lim) && lim < |src|
  {
    hide Wrote;
    hide Filled;
    hide Short;
    hide Slots;
    hide Touched;
    hide Tried;
    hide Bn;
    hide LookEnd;
    hide Room;
    hide Reach;
    hide Advance;
    WroteMore(v0, v1, v2, i, off, src, done, n1, lim - done, Reach(off + done, n1, lim - done));
    ChunkFilled(v0, v1, v2, i, off, done, lim, |src|);
    RoomAt(off, done, |src|);
    AdvanceAt(off, |src|, lim, done);
    FilledEnough(v0, v2, i, Bn(off), LookEnd(off, |src|, lim));
  }

  /** filewrite() has stopped before the end of src, with r bytes reported. */
  ghost predicate Ended(v0: Vol, v: Vol, i: nat, off: nat, src: seq<Byte>, r: nat, lim: nat) {
    && r == Advance(off, |src|, lim) && Wrote(v0, v, i, off, src, Min(Room(off, |src|), lim), r)
    && !Short(v0, i, Bn(off), LookEnd(off, |src|, lim))
  }

  /** The chunk in which the readable bytes end. */
  lemma AdvanceAt(off: nat, n: nat, lim: nat, done: nat)
    requires done < n && done % MAXCHUNK == 0 && done <= lim < done + Min(n - done, MAXCHUNK)
    requires lim < Room(off, n)
    ensures Advance(off, n, lim) == done + Reach(off + done, Min(n - done, MAXCHUNK), lim - done)
  {
    hide Whole;
    hide Room;
    WholeChunks(lim, done);
  }

  lemma NextChunk(done: nat, n: nat)
    requires done < n && done % MAXCHUNK == 0
    ensures var n1 := Min(n - done, MAXCHUNK); done + n1 == n || (done + n1) % MAXCHUNK == 0
  {
  }

  /** A chunk that does not fit is the last, and there were blocks enough. */
  lemma ChunkRefused(v0: Vol, v: Vol, i: nat, off: nat, src: seq<Byte>, done: nat, lim: nat)
    requires Writing(v0, v, i, off, src, done, lim) && done < |src|
    requires off + done + Min(|src| - done, MAXCHUNK) > MAXFILE * BSIZE
    ensures Ended(v0, v, i, off, src, done, lim) && off + |src| > MAXFILE * BSIZE
  {
    hide Wrote;
    hide Slots;
    hide Bn;
    hide Touched;
    hide Room;
    hide Short;
    hide Filled;
    RoomAt(off, done, |src|);
    FilledEnough(v0, v, i, Bn(off), LookEnd(off, |src|, lim));
  }

  /** Every chunk has been written. */
  lemma WritingEnds(v0: Vol, v: Vol, i: nat, off: nat, src: seq<Byte>, lim: nat)
    ensures Writing(v0, v, i, off, src, |src|, lim) ==>
              Ended(v0, v, i, off, src, |src|, lim) && |src| <= lim && off + |src| <= MAXFILE * BSIZE
  {
    hide Wrote;
    hide Slots;
    hide Bn;
    hide Touched;
    if Writing(v0, v, i, off, src, |src|, lim) {
      FilledEnough(v0, v, i, Bn(off), Bn(off) + Touched(off, |src|));
    }
  }
}
