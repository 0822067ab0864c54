/** The write-ahead log of kernel/log.c.

    The disk is a sequence of blocks.  Everything that commit() and recovery do to it is a
    list of single-block writes, and a machine may stop after any prefix of that list.
    Module LogCode has the code itself; its methods are proved to issue exactly these lists
    of writes, in this order. */
module Log {
  import opened Blocks
  import opened Params

  type Disk = seq<Block>
  datatype Write = Write(blockno: nat, data: Block)

  /** log.start and log.size, copied from the superblock. */
  datatype Layout = Layout(start: nat, size: nat) {
    predicate Contains(b: nat) { start <= b < start + size }
    predicate Fits(d: Disk) { 1 <= size && start + size <= |d| < 0x1_0000_0000 }
  }

  // ---------------------------------------------------------------- single-block writes

  predicate InRange(d: Disk, ws: seq<Write>) {
    forall i :: 0 <= i < |ws| ==> ws[i].blockno < |d|
  }

  function Apply(d: Disk, ws: seq<Write>): (r: Disk)
    requires InRange(d, ws)
    ensures |r| == |d|
  {
    if ws == [] then d
    else
      var last := ws[|ws| - 1];
      Apply(d, ws[..|ws| - 1])[last.blockno := last.data]
  }

  lemma {:induction false} ApplyUntouched(d: Disk, ws: seq<Write>, b: nat)
    requires InRange(d, ws) && b < |d|
    requires forall i :: 0 <= i < |ws| ==> ws[i].blockno != b
    ensures Apply(d, ws)[b] == d[b]
  {
    if ws != [] {
      ApplyUntouched(d, ws[..|ws| - 1], b);
    }
  }

  lemma {:induction false} ApplyHit(d: Disk, ws: seq<Write>, i: nat)
    requires InRange(d, ws) && i < |ws|
    requires forall j :: i < j < |ws| ==> ws[j].blockno != ws[i].blockno
    ensures Apply(d, ws)[ws[i].blockno] == ws[i].data
  {
    if i < |ws| - 1 {
      ApplyHit(d, ws[..|ws| - 1], i);
    }
  }

  lemma {:induction false} ApplyConcat(d: Disk, us: seq<Write>, ws: seq<Write>)
    requires InRange(d, us) && InRange(d, ws)
    ensures InRange(d, us + ws)
    ensures Apply(d, us + ws) == Apply(Apply(d, us), ws)
  {
    if ws == [] {
      assert us + ws == us;
    } else {
      ApplyConcat(d, us, ws[..|ws| - 1]);
      assert (us + ws)[..|us + ws| - 1] == us + ws[..|ws| - 1];
    }
  }

  // ---------------------------------------------------------------- the header block

  /** The header block after write_head(): the count and the first |slots| entries are
      replaced, whatever stood behind them stays. */
  function PutSlots(h: Block, slots: seq<Word>, k: nat): Block
    requires k <= |slots| < WORDS
  {
    if k == 0 then SetWord(h, 0, |slots|) else SetWord(PutSlots(h, slots, k - 1), k, slots[k - 1])
  }

  function PutHeader(h: Block, slots: seq<Word>): Block
    requires |slots| < WORDS
  {
    PutSlots(h, slots, |slots|)
  }

  function GetHeader(h: Block): (slots: seq<Word>)
    requires GetWord(h, 0) < WORDS
    ensures |slots| == GetWord(h, 0)
  {
    seq(GetWord(h, 0), i requires 0 <= i < WORDS - 1 => GetWord(h, i + 1))
  }

  lemma {:induction false} PutSlotsWords(h: Block, slots: seq<Word>, k: nat, j: nat)
    requires k <= |slots| < WORDS && j < WORDS
    ensures GetWord(PutSlots(h, slots, k), j) ==
            if j == 0 then |slots| else if j <= k then slots[j - 1] else GetWord(h, j)
  {
    if k == 0 {
      GetSetWord(h, 0, |slots|, j);
    } else {
      PutSlotsWords(h, slots, k - 1, j);
      GetSetWord(PutSlots(h, slots, k - 1), k, slots[k - 1], j);
    }
  }

  /** What write_head() puts on disk is what read_head() gets back. */
  lemma HeaderRoundTrip(h: Block, slots: seq<Word>)
    requires |slots| < WORDS
    ensures GetWord(PutHeader(h, slots), 0) == |slots|
    ensures GetHeader(PutHeader(h, slots)) == slots
  {
    PutSlotsWords(h, slots, |slots|, 0);
    forall i | 0 <= i < |slots|
      ensures GetHeader(PutHeader(h, slots))[i] == slots[i]
    {
      PutSlotsWords(h, slots, |slots|, i + 1);
    }
  }

  // ---------------------------------------------------------------- transactions

  /** A transaction is a list of distinct home blocks that the log region has room for. */
  predicate WfSlots(d: Disk, L: Layout, slots: seq<Word>) {
    && |slots| <= LOGSIZE && |slots| <= L.size - 1
    && (forall i :: 0 <= i < |slots| ==> slots[i] < |d| && !L.Contains(slots[i]))
    && (forall i, j :: 0 <= i < j < |slots| ==> slots[i] != slots[j])
  }

  /** The on-disk log names a transaction (the empty one when the count is zero). */
  predicate WfLog(d: Disk, L: Layout) {
    && L.Fits(d)
    && GetWord(d[L.start], 0) < WORDS
    && WfSlots(d, L, GetHeader(d[L.start]))
  }

  predicate Empty(d: Disk, L: Layout)
    requires L.Fits(d)
  {
    GetWord(d[L.start], 0) == 0
  }

  function LogWrites(L: Layout, vals: seq<Block>): (ws: seq<Write>)
    ensures |ws| == |vals|
  {
    seq(|vals|, i requires 0 <= i < |vals| => Write(L.start + 1 + i, vals[i]))
  }

  function InstallWrites(slots: seq<Word>, vals: seq<Block>): (ws: seq<Write>)
    requires |slots| == |vals|
    ensures |ws| == |slots|
  {
    seq(|slots|, i requires 0 <= i < |slots| => Write(slots[i], vals[i]))
  }

  /** Every write of one commit(), in order: the data to the log, the header, the data to
      its home blocks, the erased header. */
  function CommitWrites(d: Disk, L: Layout, slots: seq<Word>, vals: seq<Block>): (ws: seq<Write>)
    requires L.Fits(d) && |slots| == |vals| < WORDS
  {
    if slots == [] then []
    else
      var h := PutHeader(d[L.start], slots);
      LogWrites(L, vals) + [Write(L.start, h)] + InstallWrites(slots, vals)
      + [Write(L.start, PutHeader(h, []))]
  }

  function LoggedData(d: Disk, L: Layout): (vals: seq<Block>)
    requires WfLog(d, L)
    ensures |vals| == |GetHeader(d[L.start])|
  {
    seq(|GetHeader(d[L.start])|, i requires 0 <= i < L.size - 1 => d[L.start + 1 + i])
  }

  /** Every write of recover_from_log(), in order. */
  function RecoveryWrites(d: Disk, L: Layout): (ws: seq<Write>)
    requires WfLog(d, L)
    ensures InRange(d, ws)
  {
    InstallWrites(GetHeader(d[L.start]), LoggedData(d, L)) + [Write(L.start, PutHeader(d[L.start], []))]
  }

  /** The disk with a whole transaction laid over it. */
  function Overlay(d: Disk, slots: seq<Word>, vals: seq<Block>): (r: Disk)
    requires |slots| == |vals| && forall i :: 0 <= i < |slots| ==> slots[i] < |d|
    ensures |r| == |d|
  {
    Apply(d, InstallWrites(slots, vals))
  }

  /** What a disk stands for: its blocks, overlaid with the transaction its log holds. */
  function View(d: Disk, L: Layout): (r: Disk)
    requires WfLog(d, L)
    ensures |r| == |d|
  {
    Overlay(d, GetHeader(d[L.start]), LoggedData(d, L))
  }

  /** Equality on the blocks outside the log region. */
  predicate SameHome(L: Layout, d: Disk, e: Disk) {
    |d| == |e| && forall b :: 0 <= b < |d| && !L.Contains(b) ==> d[b] == e[b]
  }

  lemma OverlayAt(d: Disk, slots: seq<Word>, vals: seq<Block>, i: nat)
    requires |slots| == |vals| && i < |slots|
    requires forall j :: 0 <= j < |slots| ==> slots[j] < |d|
    requires forall j, k :: 0 <= j < k < |slots| ==> slots[j] != slots[k]
    ensures Overlay(d, slots, vals)[slots[i]] == vals[i]
  {
    ApplyHit(d, InstallWrites(slots, vals), i);
  }

  lemma OverlayElse(d: Disk, slots: seq<Word>, vals: seq<Block>, b: nat)
    requires |slots| == |vals| && b < |d| && b !in slots
    requires forall j :: 0 <= j < |slots| ==> slots[j] < |d|
    ensures Overlay(d, slots, vals)[b] == d[b]
  {
    ApplyUntouched(d, InstallWrites(slots, vals), b);
  }

  /** Laying a transaction over a disk that differs only on its own slots gives the same. */
  lemma OverlayAgree(L: Layout, d: Disk, e: Disk, slots: seq<Word>, vals: seq<Block>)
    requires |slots| == |vals| && |d| == |e| && L.Fits(d) && WfSlots(d, L, slots)
    requires forall b :: 0 <= b < |d| && !L.Contains(b) && b !in slots ==> d[b] == e[b]
    ensures SameHome(L, Overlay(d, slots, vals), Overlay(e, slots, vals))
  {
    forall b | 0 <= b < |d| && !L.Contains(b)
      ensures Overlay(d, slots, vals)[b] == Overlay(e, slots, vals)[b]
    {
      if b in slots {
        var i :| 0 <= i < |slots| && slots[i] == b;
        OverlayAt(d, slots, vals, i);
        OverlayAt(e, slots, vals, i);
      } else {
        OverlayElse(d, slots, vals, b);
        OverlayElse(e, slots, vals, b);
      }
    }
  }

  lemma EmptyView(d: Disk, L: Layout)
    requires L.Fits(d) && Empty(d, L)
    ensures WfLog(d, L) && View(d, L) == d
  {
    assert InstallWrites([], []) == [];
  }

  // ---------------------------------------------------------------- a partial install

  /** After j of the installing writes nothing outside the slots has changed. */
  lemma PartialInstall(d: Disk, L: Layout, slots: seq<Word>, vals: seq<Block>, j: nat)
    requires |slots| == |vals| && j <= |slots| && L.Fits(d) && WfSlots(d, L, slots)
    ensures InRange(d, InstallWrites(slots, vals)[..j])
    ensures var e := Apply(d, InstallWrites(slots, vals)[..j]);
            && (forall b :: 0 <= b < |d| && b !in slots ==> e[b] == d[b])
            && SameHome(L, Overlay(e, slots, vals), Overlay(d, slots, vals))
  {
    hide Apply;
    hide Overlay;
    hide SameHome;
    var ws := InstallWrites(slots, vals)[..j];
    var e := Apply(d, ws);
    forall b | 0 <= b < |d| && b !in slots
      ensures e[b] == d[b]
    {
      ApplyUntouched(d, ws, b);
    }
    hide InstallWrites;
    OverlayAgree(L, d, e, slots, vals);
    SameHomeBack(L, Overlay(d, slots, vals), Overlay(e, slots, vals));
  }

  lemma SameHomeBack(L: Layout, d: Disk, e: Disk)
    requires SameHome(L, d, e)
    ensures SameHome(L, e, d)
  {
  }

  /** A disk whose log region holds the transaction stands for the overlaid disk. */
  lemma ViewOfLogged(e: Disk, L: Layout, slots: seq<Word>, vals: seq<Block>)
    requires L.Fits(e) && |slots| == |vals| && WfSlots(e, L, slots)
    requires GetWord(e[L.start], 0) == |slots| && GetHeader(e[L.start]) == slots
    requires forall i :: 0 <= i < |vals| ==> e[L.start + 1 + i] == vals[i]
    ensures WfLog(e, L) && LoggedData(e, L) == vals && View(e, L) == Overlay(e, slots, vals)
  {
    assert LoggedData(e, L) == vals;
  }

  /** While a logged transaction is being installed, the disk keeps standing for it. */
  lemma LoggedInstall(d: Disk, L: Layout, slots: seq<Word>, vals: seq<Block>, j: nat)
    requires L.Fits(d) && |slots| == |vals| && WfSlots(d, L, slots) && j <= |slots|
    requires GetWord(d[L.start], 0) == |slots| && GetHeader(d[L.start]) == slots
    requires forall i :: 0 <= i < |vals| ==> d[L.start + 1 + i] == vals[i]
    ensures InRange(d, InstallWrites(slots, vals)[..j])
    ensures var e := Apply(d, InstallWrites(slots, vals)[..j]);
            && e[L.start] == d[L.start] && WfLog(e, L)
            && SameHome(L, View(e, L), Overlay(d, slots, vals))
            && (j == |slots| ==> e == Overlay(d, slots, vals))
  {
    PartialInstall(d, L, slots, vals, j);
    var e := Apply(d, InstallWrites(slots, vals)[..j]);
    forall b | 0 <= b < |d| && L.Contains(b)
      ensures e[b] == d[b]
    {
      assert b !in slots;
    }
    forall i | 0 <= i < |vals|
      ensures e[L.start + 1 + i] == vals[i]
    {
      assert L.Contains(L.start + 1 + i);
    }
    ViewOfLogged(e, L, slots, vals);
    if j == |slots| {
      assert InstallWrites(slots, vals)[..j] == InstallWrites(slots, vals);
    }
  }

  // ---------------------------------------------------------------- crash atomicity

  /** The disk a crash after k writes of a commit leaves behind. */
  ghost function CrashInCommit(d: Disk, L: Layout, slots: seq<Word>, vals: seq<Block>, k: nat): (e: Disk)
    requires L.Fits(d) && |slots| == |vals| && WfSlots(d, L, slots)
    requires k <= |CommitWrites(d, L, slots, vals)|
    ensures |e| == |d|
  {
    Apply(d, CommitWrites(d, L, slots, vals)[..k])
  }

  /** Up to and including the last log block: the old state, log still empty. */
  lemma CrashBeforeHead(d: Disk, L: Layout, slots: seq<Word>, vals: seq<Block>, k: nat)
    requires L.Fits(d) && Empty(d, L) && |slots| == |vals| && WfSlots(d, L, slots)
    requires k <= |slots|
    ensures k <= |CommitWrites(d, L, slots, vals)|
    ensures var e := CrashInCommit(d, L, slots, vals, k);
            && Empty(e, L) && SameHome(L, e, d)
            && (forall i :: 0 <= i < k ==> e[L.start + 1 + i] == vals[i])
  {
    var ws := CommitWrites(d, L, slots, vals)[..k];
    assert ws == LogWrites(L, vals)[..k];
    ApplyUntouched(d, ws, L.start);
    forall b | 0 <= b < |d| && !L.Contains(b)
      ensures Apply(d, ws)[b] == d[b]
    {
      ApplyUntouched(d, ws, b);
    }
    forall i | 0 <= i < k
      ensures Apply(d, ws)[L.start + 1 + i] == vals[i]
    {
      ApplyHit(d, ws, i);
    }
  }

  /** The same crash point, reached in three stages: log blocks, header, j installs. */
  lemma CommitStages(d: Disk, L: Layout, slots: seq<Word>, vals: seq<Block>, j: nat)
    requires L.Fits(d) && |slots| == |vals| && WfSlots(d, L, slots)
    requires slots != [] && j <= |slots|
    ensures |slots| + 1 + j <= |CommitWrites(d, L, slots, vals)|
    ensures var d1 := CrashInCommit(d, L, slots, vals, |slots|);
            var d2 := d1[L.start := PutHeader(d[L.start], slots)];
            && InRange(d2, InstallWrites(slots, vals)[..j])
            && CrashInCommit(d, L, slots, vals, |slots| + 1 + j) == Apply(d2, InstallWrites(slots, vals)[..j])
  {
    var n, lw, iw := |slots|, LogWrites(L, vals), InstallWrites(slots, vals)[..j];
    var hw := [Write(L.start, PutHeader(d[L.start], slots))];
    assert CommitWrites(d, L, slots, vals)[..n + 1 + j] == lw + hw + iw;
    assert CommitWrites(d, L, slots, vals)[..n] == lw;
    ApplyConcat(d, lw + hw, iw);
    ApplyConcat(d, lw, hw);
    assert Apply(Apply(d, lw), hw) == Apply(d, lw)[L.start := hw[0].data] by {
      assert hw[..0] == [];
    }
  }

  /** From the header write to the last installing write: the log holds the transaction. */
  lemma CrashAfterHead(d: Disk, L: Layout, slots: seq<Word>, vals: seq<Block>, j: nat)
    requires L.Fits(d) && Empty(d, L) && |slots| == |vals| && WfSlots(d, L, slots)
    requires slots != [] && j <= |slots|
    ensures |slots| + 1 + j <= |CommitWrites(d, L, slots, vals)|
    ensures var e := CrashInCommit(d, L, slots, vals, |slots| + 1 + j);
            && e[L.start] == PutHeader(d[L.start], slots)
            && WfLog(e, L) && GetHeader(e[L.start]) == slots
            && SameHome(L, View(e, L), Overlay(d, slots, vals))
            && (j == |slots| ==> SameHome(L, e, Overlay(d, slots, vals)))
  {
    hide CommitWrites;
    hide CrashInCommit;
    hide View;
    hide Overlay;
    hide InstallWrites;
    hide Apply;
    CrashBeforeHead(d, L, slots, vals, |slots|);
    CommitStages(d, L, slots, vals, j);
    var d2 := CrashInCommit(d, L, slots, vals, |slots|)[L.start := PutHeader(d[L.start], slots)];
    HeaderRoundTrip(d[L.start], slots);
    LoggedInstall(d2, L, slots, vals, j);
    OverlayAgree(L, d, d2, slots, vals);
  }

  lemma CommitLength(d: Disk, L: Layout, slots: seq<Word>, vals: seq<Block>)
    requires L.Fits(d) && |slots| == |vals| < WORDS
    ensures |CommitWrites(d, L, slots, vals)| == if slots == [] then 0 else 2 * |slots| + 2
  {
  }

  /** A crash anywhere in commit() leaves a disk that stands for the whole old state when
      the header had not been written, and for the whole new state from then on. */
  lemma CommitCrashPoint(d: Disk, L: Layout, slots: seq<Word>, vals: seq<Block>, k: nat)
    requires L.Fits(d) && Empty(d, L) && |slots| == |vals| && WfSlots(d, L, slots)
    requires k <= |CommitWrites(d, L, slots, vals)|
    ensures var e := CrashInCommit(d, L, slots, vals, k);
            && WfLog(e, L)
            && SameHome(L, View(e, L), if k <= |slots| then d else Overlay(d, slots, vals))
            && (k == |CommitWrites(d, L, slots, vals)| ==> Empty(e, L))
  {
    hide CommitWrites;
    hide CrashInCommit;
    hide View;
    hide Overlay;
    hide GetHeader;
    hide PutHeader;
    var e := CrashInCommit(d, L, slots, vals, k);
    CommitLength(d, L, slots, vals);
    if k <= |slots| {
      CrashBeforeHead(d, L, slots, vals, k);
      EmptyView(e, L);
    } else if k <= 2 * |slots| + 1 {
      CrashAfterHead(d, L, slots, vals, k - |slots| - 1);
      HeadFull(d, L, slots);
    } else {
      CrashAfterHead(d, L, slots, vals, |slots|);
      CommitEnd(d, L, slots, vals);
      HeadErased(CrashInCommit(d, L, slots, vals, 2 * |slots| + 1), L, PutHeader(d[L.start], slots),
                 Overlay(d, slots, vals));
    }
  }

  lemma HeadFull(d: Disk, L: Layout, slots: seq<Word>)
    requires L.Fits(d) && WfSlots(d, L, slots)
    ensures GetWord(PutHeader(d[L.start], slots), 0) == |slots|
  {
    HeaderRoundTrip(d[L.start], slots);
  }

  /** The last write of commit(). */
  lemma CommitEnd(d: Disk, L: Layout, slots: seq<Word>, vals: seq<Block>)
    requires L.Fits(d) && |slots| == |vals| && WfSlots(d, L, slots) && slots != []
    ensures |CommitWrites(d, L, slots, vals)| == 2 * |slots| + 2
    ensures var e := CrashInCommit(d, L, slots, vals, 2 * |slots| + 1);
            CrashInCommit(d, L, slots, vals, 2 * |slots| + 2)
            == e[L.start := PutHeader(PutHeader(d[L.start], slots), [])]
  {
    hide PutHeader;
    var ws, n := CommitWrites(d, L, slots, vals), 2 * |slots| + 1;
    CommitLength(d, L, slots, vals);
    CommitLast(d, L, slots, vals);
    hide CommitWrites;
    assert ws[..n + 1] == ws && ws[..n + 1][..n] == ws[..n];
  }

  lemma CommitLast(d: Disk, L: Layout, slots: seq<Word>, vals: seq<Block>)
    requires L.Fits(d) && |slots| == |vals| < WORDS && slots != []
    ensures |CommitWrites(d, L, slots, vals)| == 2 * |slots| + 2
    ensures CommitWrites(d, L, slots, vals)[2 * |slots| + 1]
         == Write(L.start, PutHeader(PutHeader(d[L.start], slots), []))
  {
    hide PutHeader;
  }

  /** Erasing the header of a disk whose home blocks hold the transaction. */
  lemma HeadErased(e: Disk, L: Layout, h: Block, home: Disk)
    requires L.Fits(e) && SameHome(L, e, home)
    ensures var e' := e[L.start := PutHeader(h, [])]; WfLog(e', L) && Empty(e', L) && SameHome(L, View(e', L), home)
  {
    hide View;
    var e' := e[L.start := PutHeader(h, [])];
    HeaderRoundTrip(h, []);
    hide PutHeader;
    EmptyView(e', L);
  }

  /** A crash anywhere in recovery leaves a disk that stands for the same state; a
      completed recovery has put that state on the home blocks and emptied the log. */
  lemma RecoveryCrashPoint(d: Disk, L: Layout, k: nat)
    requires WfLog(d, L) && k <= |RecoveryWrites(d, L)|
    ensures var e := Apply(d, RecoveryWrites(d, L)[..k]);
            && WfLog(e, L) && SameHome(L, View(e, L), View(d, L))
            && (k == |RecoveryWrites(d, L)| ==> Empty(e, L) && SameHome(L, e, View(d, L)))
  {
    var slots, vals := GetHeader(d[L.start]), LoggedData(d, L);
    var rw := RecoveryWrites(d, L);
    var n := |slots|;
    var j := if k <= n then k else n;
    assert rw[..j] == InstallWrites(slots, vals)[..j];
    LoggedInstall(d, L, slots, vals, j);
    if k == n + 1 {
      assert rw[..k] == rw && rw[..n] == InstallWrites(slots, vals) && rw == rw[..n] + [rw[n]];
      HeaderRoundTrip(d[L.start], []);
      EmptyView(Apply(d, rw), L);
    }
  }

  /** Recovery attempts cut short by crashes after crashes[0], crashes[1], ... writes. */
  ghost function Interrupted(d: Disk, L: Layout, crashes: seq<nat>): (e: Disk)
    requires WfLog(d, L)
    ensures WfLog(e, L) && SameHome(L, View(e, L), View(d, L))
    decreases |crashes|
  {
    if crashes == [] then d
    else
      var k := if crashes[0] <= |RecoveryWrites(d, L)| then crashes[0] else |RecoveryWrites(d, L)|;
      RecoveryCrashPoint(d, L, k);
      Interrupted(Apply(d, RecoveryWrites(d, L)[..k]), L, crashes[1..])
  }

  ghost function Recovered(d: Disk, L: Layout): (e: Disk)
    requires WfLog(d, L)
    ensures L.Fits(e)
  {
    Apply(d, RecoveryWrites(d, L))
  }

  /** Crash atomicity: whatever the crash point in commit(), and however many crashes cut
      the recoveries that follow, the recovery that completes leaves the home blocks in
      the whole old state or in the whole new one, with the log empty.  Which of the two
      is decided by one write, that of the header. */
  lemma CrashAtomicity(d: Disk, L: Layout, slots: seq<Word>, vals: seq<Block>, k: nat, crashes: seq<nat>)
    requires L.Fits(d) && Empty(d, L) && |slots| == |vals| && WfSlots(d, L, slots)
    requires k <= |CommitWrites(d, L, slots, vals)|
    ensures WfLog(CrashInCommit(d, L, slots, vals, k), L)
    ensures var e := Recovered(Interrupted(CrashInCommit(d, L, slots, vals, k), L, crashes), L);
            Empty(e, L) && SameHome(L, e, if k <= |slots| then d else Overlay(d, slots, vals))
  {
    CommitCrashPoint(d, L, slots, vals, k);
    var c := Interrupted(CrashInCommit(d, L, slots, vals, k), L, crashes);
    var rw := RecoveryWrites(c, L);
    assert rw[..|rw|] == rw;
    RecoveryCrashPoint(c, L, |rw|);
  }

  /** Recovery is idempotent: after a completed one, another changes no home block, and
      neither does one that is cut short. */
  lemma RecoveryIdempotent(d: Disk, L: Layout, k: nat)
    requires WfLog(d, L)
    ensures WfLog(Recovered(d, L), L)
    ensures var e := Recovered(d, L); var rw := RecoveryWrites(e, L);
            k <= |rw| ==> SameHome(L, Apply(e, rw[..k]), e)
  {
    var rw := RecoveryWrites(d, L);
    assert rw[..|rw|] == rw;
    RecoveryCrashPoint(d, L, |rw|);
    var e := Recovered(d, L);
    EmptyView(e, L);
    var rw' := RecoveryWrites(e, L);
    assert InstallWrites([], []) == [];
    assert rw' == [Write(L.start, PutHeader(e[L.start], []))];
    if k == 0 {
      assert rw'[..0] == [];
    } else if k == 1 {
      assert rw'[..1] == rw';
      assert Apply(e, rw') == e[L.start := PutHeader(e[L.start], [])] by {
        assert rw'[..0] == [];
      }
    }
  }
}
