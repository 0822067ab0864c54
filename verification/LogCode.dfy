/** The functions of kernel/log.c, statement by statement, over the disk of module Log.

    Every disk write goes through Bwrite, which also appends it to a history.  The
    contracts say exactly which writes are issued, so that the crash theorems of module
    Log speak about every point at which this code can be stopped. */
module LogCode {
  import opened Blocks
  import opened Log
  import opened Params

  // ---------------------------------------------------------------- reservations

  /** Slots reserved by running operations and not yet spent; used maps each running
      operation to the slots it has added. */
  ghost function Unspent(used: map<nat, nat>): int
    decreases |used|
  {
    if used == map[] then 0
    else
      var t :| t in used;
      assert |used - {t}| < |used| by { assert used == (used - {t})[t := used[t]]; }
      MAXOPBLOCKS - used[t] + Unspent(used - {t})
  }

  lemma {:induction false} UnspentSplit(used: map<nat, nat>, t: nat)
    requires t in used
    ensures Unspent(used) == MAXOPBLOCKS - used[t] + Unspent(used - {t})
    decreases |used|
  {
    var u :| u in used && Unspent(used) == MAXOPBLOCKS - used[u] + Unspent(used - {u});
    if u != t {
      assert |used - {u}| < |used| && |used - {t}| < |used| by {
        assert used == (used - {u})[u := used[u]] && used == (used - {t})[t := used[t]];
      }
      UnspentSplit(used - {u}, t);
      UnspentSplit(used - {t}, u);
      assert used - {u} - {t} == used - {t} - {u};
    }
  }

  lemma {:induction false} UnspentBounds(used: map<nat, nat>)
    requires forall t :: t in used ==> used[t] <= MAXOPBLOCKS
    ensures 0 <= Unspent(used) <= MAXOPBLOCKS * |used|
    decreases |used|
  {
    if used != map[] {
      var t :| t in used && Unspent(used) == MAXOPBLOCKS - used[t] + Unspent(used - {t});
      assert |used - {t}| == |used| - 1 by { assert used == (used - {t})[t := used[t]]; }
      UnspentBounds(used - {t});
    }
  }

  lemma UnspentSpend(used: map<nat, nat>, t: nat)
    requires t in used
    ensures Unspent(used[t := used[t] + 1]) == Unspent(used) - 1
    ensures |used[t := used[t] + 1]| == |used|
  {
    var grown := used[t := used[t] + 1];
    UnspentSplit(used, t);
    UnspentSplit(grown, t);
    assert grown - {t} == used - {t};
    assert grown.Keys == used.Keys;
    assert |grown| == |grown.Keys| && |used| == |used.Keys|;
  }

  /** log_write()'s panic test, made before it looks for the block among the slots. */
  predicate GuardFires(n: nat, size: nat) {
    n >= LOGSIZE || n >= size - 1
  }

  /** The pinned buffers are those of the slots. */
  ghost predicate PinsMatch(pinned: map<nat, Block>, lh: seq<Word>) {
    forall b :: b in pinned <==> b in lh
  }

  lemma AddSlot(d: Disk, L: Layout, slots: seq<Word>, pinned: map<nat, Block>, b: Word, data: Block)
    requires WfSlots(d, L, slots) && b !in slots && b < |d| && !L.Contains(b)
    requires !GuardFires(|slots|, L.size) && PinsMatch(pinned, slots)
    ensures WfSlots(d, L, slots + [b]) && PinsMatch(pinned[b := data], slots + [b])
  {
  }

  lemma CommitDone(d: Disk, L: Layout, slots: seq<Word>, vals: seq<Block>)
    requires L.Fits(d) && Empty(d, L) && |slots| == |vals| && WfSlots(d, L, slots)
    ensures InRange(d, CommitWrites(d, L, slots, vals))
    ensures var e := Apply(d, CommitWrites(d, L, slots, vals));
            Empty(e, L) && SameHome(L, e, Overlay(d, slots, vals))
  {
    hide View;
    hide PutHeader;
    hide GetHeader;
    hide WfLog;
    var ws := CommitWrites(d, L, slots, vals);
    CommitLength(d, L, slots, vals);
    CommitCrashPoint(d, L, slots, vals, |ws|);
    assert ws[..|ws|] == ws;
    if slots == [] {
      assert InstallWrites(slots, vals) == [];
    }
    hide CommitWrites;
    hide WfSlots;
    EmptyView(Apply(d, ws), L);
  }

  /** The log blocks hold vals. */
  ghost predicate Logs(d: Disk, L: Layout, vals: seq<Block>)
    requires L.start + |vals| < |d|
  {
    forall i :: 0 <= i < |vals| ==> d[L.start + 1 + i] == vals[i]
  }

  lemma LogsHead(d: Disk, L: Layout, vals: seq<Block>, h: Block)
    requires L.start + |vals| < |d| && Logs(d, L, vals)
    ensures Logs(d[L.start := h], L, vals)
  {
  }

  /** The disk that install_trans() starts from inside commit(). */
  lemma CommitHalfway(d: Disk, L: Layout, slots: seq<Word>, vals: seq<Block>)
    requires L.Fits(d) && Empty(d, L) && |slots| == |vals| && WfSlots(d, L, slots)
    ensures InRange(d, LogWrites(L, vals))
    ensures var e := Apply(d, LogWrites(L, vals));
            e[L.start] == d[L.start] && L.start + |vals| < |e| && Logs(e, L, vals)
  {
    var lw := LogWrites(L, vals);
    ApplyUntouched(d, lw, L.start);
    forall i | 0 <= i < |vals|
      ensures Apply(d, lw)[L.start + 1 + i] == vals[i]
    {
      ApplyHit(d, lw, i);
    }
  }

  /** The four runs of writes of commit(), one after the other. */
  lemma CommitInStages(d: Disk, h: seq<Write>, L: Layout, slots: seq<Word>, vals: seq<Block>)
    requires L.Fits(d) && |slots| == |vals| && WfSlots(d, L, slots) && slots != []
    ensures var head := PutHeader(d[L.start], slots);
            var lw, iw := LogWrites(L, vals), InstallWrites(slots, vals);
            var hw, cw := [Write(L.start, head)], [Write(L.start, PutHeader(head, []))];
            && InRange(d, lw) && InRange(d, hw) && InRange(d, iw) && InRange(d, cw)
            && InRange(d, CommitWrites(d, L, slots, vals))
            && Apply(Apply(Apply(Apply(d, lw), hw), iw), cw) == Apply(d, CommitWrites(d, L, slots, vals))
            && h + lw + hw + iw + cw == h + CommitWrites(d, L, slots, vals)
  {
    var head := PutHeader(d[L.start], slots);
    var lw, iw := LogWrites(L, vals), InstallWrites(slots, vals);
    var hw, cw := [Write(L.start, head)], [Write(L.start, PutHeader(head, []))];
    ApplyConcat(d, lw, hw);
    ApplyConcat(d, lw + hw, iw);
    ApplyConcat(d, lw + hw + iw, cw);
    assert CommitWrites(d, L, slots, vals) == lw + hw + iw + cw;
    assert h + lw + hw + iw + cw == h + (lw + hw + iw + cw);
  }

  lemma NoWrites(d: Disk, h: seq<Write>, L: Layout, slots: seq<Word>, vals: seq<Block>)
    requires L.Fits(d) && slots == [] && vals == []
    ensures CommitWrites(d, L, slots, vals) == [] && Apply(d, []) == d && h == h + [] && slots == []
  {
  }

  /** Installing leaves the header block alone. */
  lemma InstallKeepsHead(d: Disk, L: Layout, slots: seq<Word>, vals: seq<Block>)
    requires L.Fits(d) && |slots| == |vals| && WfSlots(d, L, slots)
    ensures InRange(d, InstallWrites(slots, vals))
    ensures Apply(d, InstallWrites(slots, vals))[L.start] == d[L.start]
  {
    assert L.Contains(L.start);
    ApplyUntouched(d, InstallWrites(slots, vals), L.start);
  }

  function Without(pinned: map<nat, Block>, slots: seq<Word>): map<nat, Block> {
    map b | b in pinned && b !in slots :: pinned[b]
  }

  lemma WithoutStep(pinned: map<nat, Block>, slots: seq<Word>, i: nat)
    requires i < |slots|
    ensures Without(pinned, slots[..i + 1]) == Without(pinned, slots[..i]) - {slots[i] as nat}
  {
    assert slots[..i + 1] == slots[..i] + [slots[i]];
  }

  lemma WithoutAll(pinned: map<nat, Block>, slots: seq<Word>)
    requires PinsMatch(pinned, slots)
    ensures Without(pinned, slots) == map[]
  {
  }

  lemma NothingYet(d: Disk, h: seq<Write>, pinned: map<nat, Block>, slots: seq<Word>, ws: seq<Write>)
    ensures Apply(d, ws[..0]) == d && h + ws[..0] == h && Without(pinned, slots[..0]) == pinned
  {
  }

  /** One more write of a list of writes. */
  lemma ApplyNext(d: Disk, h: seq<Write>, ws: seq<Write>, i: nat)
    requires InRange(d, ws) && i < |ws|
    ensures Apply(d, ws[..i + 1]) == Apply(d, ws[..i])[ws[i].blockno := ws[i].data]
    ensures h + ws[..i + 1] == h + ws[..i] + [ws[i]]
  {
    assert ws[..i + 1][..i] == ws[..i];
  }

  /** The contents the log would write for its slots. */
  function SlotData(lh: seq<Word>, pinned: map<nat, Block>): (vals: seq<Block>)
    requires forall i :: 0 <= i < |lh| ==> lh[i] in pinned
    ensures |vals| == |lh|
  {
    seq(|lh|, i requires 0 <= i < |lh| => pinned[lh[i]])
  }

  /** The state between the steps of log.c: nothing is committed on disk, the slots are pinned,
      and the slots in use with all unspent reservations fit in LOGSIZE. */
  ghost predicate LogOk(L: Layout, disk: Disk, lh: seq<Word>, pinned: map<nat, Block>, used: map<nat, nat>) {
    && L.Fits(disk) && WfSlots(disk, L, lh) && Empty(disk, L)
    && PinsMatch(pinned, lh)
    && (forall t :: t in used ==> used[t] <= MAXOPBLOCKS)
    && |lh| + Unspent(used) <= LOGSIZE
  }

  /** The state after recovery. */
  lemma NothingLogged(L: Layout, disk: Disk)
    requires WfLog(disk, L)
    ensures LogOk(L, Recovered(disk, L), [], map[], map[])
  {
    var rw := RecoveryWrites(disk, L);
    RecoveryCrashPoint(disk, L, |rw|);
    assert rw[..|rw|] == rw;
    hide RecoveryWrites;
    hide Apply;
  }

  /** A new block takes a slot and one unit of the reservation of operation t. */
  lemma LogAppend(L: Layout, disk: Disk, lh: seq<Word>, pinned: map<nat, Block>, used: map<nat, nat>, t: nat, b: Word,
                  data: Block)
    requires LogOk(L, disk, lh, pinned, used) && t in used && used[t] < MAXOPBLOCKS && b !in lh
    requires b < |disk| && !L.Contains(b) && !GuardFires(|lh|, L.size)
    ensures LogOk(L, disk, lh + [b], pinned[b := data], used[t := used[t] + 1])
    ensures |used[t := used[t] + 1]| == |used|
  {
    AddSlot(disk, L, lh, pinned, b, data);
    UnspentSpend(used, t);
    assert used[t := used[t] + 1].Keys == used.Keys;
    hide WfSlots;
    hide PinsMatch;
    hide Unspent;
    hide Empty;
  }

  lemma LogAbsorb(L: Layout, disk: Disk, lh: seq<Word>, pinned: map<nat, Block>, used: map<nat, nat>, b: Word,
                  data: Block)
    requires LogOk(L, disk, lh, pinned, used) && b in lh
    ensures LogOk(L, disk, lh, pinned[b := data], used)
  {
    hide WfSlots;
    hide Unspent;
    hide Empty;
  }

  lemma LogsKept(d: Disk, L: Layout, lh: seq<Word>, vals: seq<Block>, k: nat, v: Block)
    requires L.Fits(d) && WfSlots(d, L, lh) && |vals| == |lh| && k < |lh| && Logs(d, L, vals)
    ensures lh[k] < |d| && Logs(d[lh[k] := v], L, vals) && d[L.start + 1 + k] == vals[k]
  {
    forall i | 0 <= i < |vals|
      ensures d[lh[k] := v][L.start + 1 + i] == vals[i]
    {
      assert L.Contains(L.start + 1 + i);
    }
  }

  /** From disk d, history h and pins p, install_trans() has written the first k slots home. */
  ghost predicate Installing(d: Disk, h: seq<Write>, p: map<nat, Block>, e: Disk, h': seq<Write>, p': map<nat, Block>,
                             lh: seq<Word>, vals: seq<Block>, recovering: bool, k: nat) {
    && k <= |lh| == |vals| && |e| == |d|
    && var ws := InstallWrites(lh, vals)[..k];
    && InRange(d, ws) && h' == h + ws && e == Apply(d, ws)
    && p' == if recovering then p else Without(p, lh[..k])
  }

  lemma InstallingNone(d: Disk, h: seq<Write>, p: map<nat, Block>, lh: seq<Word>, vals: seq<Block>, recovering: bool)
    requires |lh| == |vals|
    ensures Installing(d, h, p, d, h, p, lh, vals, recovering, 0)
  {
    hide InstallWrites;
    NothingYet(d, h, p, lh, InstallWrites(lh, vals));
  }

  lemma InstallingStep(d: Disk, h: seq<Write>, p: map<nat, Block>, e: Disk, h': seq<Write>, p': map<nat, Block>,
                       L: Layout, lh: seq<Word>, vals: seq<Block>, recovering: bool, k: nat)
    requires Installing(d, h, p, e, h', p', lh, vals, recovering, k) && k < |lh| && L.Fits(d) && WfSlots(d, L, lh)
    ensures lh[k] < |d|
    ensures Installing(d, h, p, e[lh[k] := vals[k]], h' + [Write(lh[k], vals[k])],
                       if recovering then p' else p' - {lh[k] as nat}, lh, vals, recovering, k + 1)
  {
    hide Apply;
    hide Without;
    var ws := InstallWrites(lh, vals);
    assert InRange(d, ws) && ws[k] == Write(lh[k], vals[k]);
    hide InstallWrites;
    assert InRange(d, ws[..k + 1]);
    hide InRange;
    ApplyNext(d, h, ws, k);
    WithoutStep(p, lh, k);
  }

  lemma InstallingEnd(d: Disk, h: seq<Write>, p: map<nat, Block>, e: Disk, h': seq<Write>, p': map<nat, Block>,
                      lh: seq<Word>, vals: seq<Block>, recovering: bool)
    requires Installing(d, h, p, e, h', p', lh, vals, recovering, |lh|)
    ensures |lh| == |vals| && InRange(d, InstallWrites(lh, vals)) && h' == h + InstallWrites(lh, vals)
    ensures e == Apply(d, InstallWrites(lh, vals)) && p' == if recovering then p else Without(p, lh)
  {
    hide Apply;
    hide Without;
    hide InstallWrites;
    hide InRange;
    assert InstallWrites(lh, vals)[..|lh|] == InstallWrites(lh, vals) && lh[..|lh|] == lh;
  }

  // ---------------------------------------------------------------- the code

  class LogState {
    const L: Layout
    var disk: Disk
    ghost var history: seq<Write>    // every single-block write, in order
    var lh: seq<Word>                // lh.n is |lh|
    var outstanding: nat
    var committing: bool
    var pinned: map<nat, Block>      // buffers pinned by log_write, with their contents
    ghost var used: map<nat, nat>    // slots added by each running operation

    ghost predicate Valid()
      reads this
    {
      LogOk(L, disk, lh, pinned, used) && outstanding == |used| && (committing ==> outstanding == 0)
    }

    /** The writes ws, and nothing else, have happened since the given disk and history. */
    ghost predicate Issued(d: Disk, h: seq<Write>, ws: seq<Write>)
      reads this
    {
      InRange(d, ws) && history == h + ws && disk == Apply(d, ws)
    }

    /** Two runs of writes, one after the other, are one run. */
    lemma IssuedTwice(d: Disk, h: seq<Write>, us: seq<Write>, ws: seq<Write>)
      requires InRange(d, us) && InRange(d, ws)
      requires Issued(Apply(d, us), h + us, ws)
      ensures Issued(d, h, us + ws)
    {
      hide Apply;
      hide InRange;
      ApplyConcat(d, us, ws);
      assert h + us + ws == h + (us + ws);
    }

    method Bwrite(b: nat, data: Block)
      requires b < |disk|
      modifies this`disk, this`history
      ensures disk == old(disk)[b := data] && history == old(history) + [Write(b, data)]
    {
      disk := disk[b := data];
      history := history + [Write(b, data)];
    }

    /** initlog() and recover_from_log(): takes any disk a crash can leave. */
    constructor (L: Layout, disk: Disk)
      requires WfLog(disk, L)
      ensures this.L == L && Valid() && lh == [] && outstanding == 0 && !committing
      ensures this.disk == Recovered(disk, L) && history == RecoveryWrites(disk, L)
    {
      this.L := L;
      this.disk := disk;
      history := [];
      lh := [];
      outstanding := 0;
      committing := false;
      pinned := map[];
      used := map[];
      new;
      hide LogOk;
      hide Apply;
      hide RecoveryWrites;
      RecoverFromLog();
      NothingLogged(L, disk);
    }

    method ReadHead()
      requires WfLog(disk, L)
      modifies this`lh
      ensures lh == GetHeader(disk[L.start])
    {
      var buf := disk[L.start];
      var n := GetWord(buf, 0);
      lh := [];
      var i := 0;
      while i < n
        invariant 0 <= i <= n < WORDS
        invariant lh == GetHeader(buf)[..i]
      {
        lh := lh + [GetWord(buf, i + 1)];
        i := i + 1;
      }
      assert GetHeader(buf)[..n] == GetHeader(buf);
    }

    method WriteHead()
      requires L.Fits(disk) && |lh| < WORDS
      modifies this`disk, this`history
      ensures Issued(old(disk), old(history), [Write(L.start, PutHeader(old(disk)[L.start], lh))])
      ensures disk == old(disk)[L.start := PutHeader(old(disk)[L.start], lh)]
    {
      var hb := SetWord(disk[L.start], 0, |lh|);
      var i := 0;
      while i < |lh|
        invariant 0 <= i <= |lh|
        invariant hb == PutSlots(disk[L.start], lh, i)
      {
        hb := SetWord(hb, i + 1, lh[i]);
        i := i + 1;
      }
      Bwrite(L.start, hb);
      assert [Write(L.start, hb)][..0] == [];
    }

    /** Copies the logged blocks home, unpinning them unless recovering. */
    method InstallTrans(recovering: bool, ghost vals: seq<Block>)
      requires L.Fits(disk) && WfSlots(disk, L, lh) && |vals| == |lh| && Logs(disk, L, vals)
      modifies this`disk, this`history, this`pinned
      ensures Issued(old(disk), old(history), InstallWrites(lh, vals))
      ensures pinned == if recovering then old(pinned) else Without(old(pinned), lh)
    {
      hide Logs;
      hide Installing;
      hide Issued;
      InstallingNone(disk, history, pinned, lh, vals, recovering);
      var tail := 0;
      while tail < |lh|
        invariant 0 <= tail <= |lh| && |disk| == |old(disk)| && Logs(disk, L, vals)
        invariant Installing(old(disk), old(history), old(pinned), disk, history, pinned, lh, vals, recovering, tail)
      {
        var data := disk[L.start + tail + 1];
        LogsKept(disk, L, lh, vals, tail, data);
        InstallingStep(old(disk), old(history), old(pinned), disk, history, pinned, L, lh, vals, recovering, tail);
        Bwrite(lh[tail], data);
        if !recovering {
          pinned := pinned - {lh[tail] as nat};
        }
        tail := tail + 1;
      }
      InstallingEnd(old(disk), old(history), old(pinned), disk, history, pinned, lh, vals, recovering);
      IssuedNow(old(disk), old(history), InstallWrites(lh, vals));
    }

    lemma IssuedNow(d: Disk, h: seq<Write>, ws: seq<Write>)
      requires InRange(d, ws) && history == h + ws && disk == Apply(d, ws)
      ensures Issued(d, h, ws)
    {
    }

    method RecoverFromLog()
      requires WfLog(disk, L)
      modifies this`disk, this`history, this`lh, this`pinned
      ensures Issued(old(disk), old(history), RecoveryWrites(old(disk), L))
      ensures lh == [] && pinned == old(pinned)
    {
      ghost var d, h := disk, history;
      ghost var vals := LoggedData(disk, L);
      ReadHead();
      ghost var iw := InstallWrites(lh, vals);
      InstallTrans(true, vals);
      InstallKeepsHead(d, L, lh, vals);
      lh := [];
      WriteHead();
      IssuedTwice(d, h, iw, [Write(L.start, PutHeader(d[L.start], []))]);
    }

    method WriteLog()
      requires L.Fits(disk) && WfSlots(disk, L, lh)
      requires forall i :: 0 <= i < |lh| ==> lh[i] in pinned
      modifies this`disk, this`history
      ensures Issued(old(disk), old(history), LogWrites(L, SlotData(lh, pinned)))
    {
      ghost var ws := LogWrites(L, SlotData(lh, pinned));
      var tail := 0;
      while tail < |lh|
        invariant 0 <= tail <= |lh|
        invariant |disk| == |old(disk)|
        invariant Issued(old(disk), old(history), ws[..tail])
      {
        Bwrite(L.start + tail + 1, pinned[lh[tail]]);
        ApplyNext(old(disk), old(history), ws, tail);
        assert ws[tail] == Write(L.start + tail + 1, pinned[lh[tail]]);
        tail := tail + 1;
      }
      assert ws[..|lh|] == ws;
    }

    /** The four stages of commit(). */
    method CommitStages(ghost d: Disk, ghost h: seq<Write>, ghost slots: seq<Word>, ghost vals: seq<Block>)
      requires L.Fits(disk) && WfSlots(disk, L, lh) && Empty(disk, L) && lh != []
      requires forall i :: 0 <= i < |lh| ==> lh[i] in pinned
      requires d == disk && h == history && slots == lh && vals == SlotData(lh, pinned)
      modifies this`disk, this`history, this`lh, this`pinned
      ensures Issued(d, h, CommitWrites(d, L, slots, vals)) && lh == [] && pinned == Without(old(pinned), slots)
    {
      CommitInStages(d, h, L, slots, vals);
      CommitHalfway(d, L, slots, vals);
      hide Apply;
      hide CommitWrites;
      hide LogWrites;
      hide InstallWrites;
      hide PutHeader;
      hide Without;
      hide Logs;
      hide InRange;
      WriteLog();
      LogsHead(disk, L, vals, PutHeader(disk[L.start], lh));
      WriteHead();
      InstallKeepsHead(disk, L, slots, vals);
      InstallTrans(false, vals);
      lh := [];
      WriteHead();
    }

    /** commit() issues CommitWrites, write for write; CrashAtomicity covers every prefix. */
    method Commit()
      requires L.Fits(disk) && WfSlots(disk, L, lh) && Empty(disk, L)
      requires PinsMatch(pinned, lh)
      modifies this`disk, this`history, this`lh, this`pinned
      ensures Issued(old(disk), old(history), CommitWrites(old(disk), L, old(lh), SlotData(old(lh), old(pinned))))
      ensures lh == [] && pinned == map[]
      ensures Empty(disk, L) && SameHome(L, disk, Overlay(old(disk), old(lh), SlotData(old(lh), old(pinned))))
    {
      ghost var vals := SlotData(lh, pinned);
      CommitDone(disk, L, lh, vals);
      WithoutAll(pinned, lh);
      hide Apply;
      hide CommitWrites;
      hide Empty;
      hide SameHome;
      hide Overlay;
      hide Without;
      if |lh| > 0 {
        CommitStages(disk, history, lh, vals);
      } else {
        NoWrites(disk, history, L, lh, vals);
      }
    }

    /** One turn of begin_op()'s loop for operation t; false means it went to sleep. */
    method BeginOp(ghost t: nat) returns (admitted: bool)
      requires Valid() && t !in used
      modifies this`outstanding, this`used
      ensures Valid()
      ensures admitted <==> !committing && |lh| + (old(outstanding) + 1) * MAXOPBLOCKS <= LOGSIZE
      ensures outstanding == old(outstanding) + if admitted then 1 else 0
      ensures used == if admitted then old(used)[t := 0] else old(used)
    {
      if committing {
        admitted := false;
      } else if |lh| + (outstanding + 1) * MAXOPBLOCKS > LOGSIZE {
        admitted := false;
      } else {
        outstanding := outstanding + 1;
        UnspentBounds(used);
        ghost var grown := used[t := 0];
        UnspentSplit(grown, t);
        assert grown - {t} == used;
        used := grown;
        admitted := true;
      }
    }

    /** log_write() of block b, now holding data, by operation t.  Panics exactly when the
        guard fires or no operation runs; otherwise block b takes one slot, its old one if
        it has one. */
    method LogWrite(ghost t: nat, b: Word, data: Block) returns (panics: bool)
      requires Valid() && b < |disk| && !L.Contains(b)
      requires outstanding > 0 ==> t in used && (b in lh || used[t] < MAXOPBLOCKS)
      modifies this`lh, this`pinned, this`used
      ensures Valid()
      ensures panics <==> GuardFires(|old(lh)|, L.size) || outstanding < 1
      ensures panics ==> lh == old(lh) && pinned == old(pinned) && used == old(used)
      ensures !panics ==> lh == if b in old(lh) then old(lh) else old(lh) + [b]
      ensures !panics ==> pinned == old(pinned)[b := data]
      ensures !panics ==> used == if b in old(lh) then old(used) else old(used)[t := old(used)[t] + 1]
    {
      if |lh| >= LOGSIZE || |lh| >= L.size - 1 {
        return true;
      }
      if outstanding < 1 {
        return true;
      }
      panics := false;
      hide LogOk;
      var i := 0;
      while i < |lh| && lh[i] != b
        invariant 0 <= i <= |lh|
        invariant b !in lh[..i]
      {
        i := i + 1;
      }
      if i == |lh| {
        assert lh[..i] == lh;
        LogAppend(L, disk, lh, pinned, used, t, b, data);
        lh := lh + [b];
        used := used[t := used[t] + 1];
      } else {
        LogAbsorb(L, disk, lh, pinned, used, b, data);
        assert lh[i := b] == lh;
        lh := lh[i := b];
      }
      pinned := pinned[b := data];
    }

    /** end_op() by operation t: the last one out commits the whole group. */
    method EndOp(ghost t: nat)
      requires Valid() && t in used && !committing
      modifies this
      ensures Valid() && !committing
      ensures used == old(used) - {t} && outstanding == old(outstanding) - 1
      ensures outstanding > 0 ==> disk == old(disk) && history == old(history) && lh == old(lh)
                                  && pinned == old(pinned)
      ensures outstanding == 0 ==>
                && Issued(old(disk), old(history), CommitWrites(old(disk), L, old(lh), SlotData(old(lh), old(pinned))))
                && SameHome(L, disk, Overlay(old(disk), old(lh), SlotData(old(lh), old(pinned))))
                && lh == [] && pinned == map[]
    {
      UnspentSplit(used, t);
      assert |used - {t}| == |used| - 1 by { assert used == (used - {t})[t := used[t]]; }
      var doCommit := false;
      outstanding := outstanding - 1;
      used := used - {t};
      UnspentBounds(used);
      if outstanding == 0 {
        doCommit := true;
        committing := true;
      }
      if doCommit {
        Commit();
        committing := false;
      }
    }
  }
}
