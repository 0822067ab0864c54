/** When log_write() of kernel/log.c panics.  begin_op() reserves MAXOPBLOCKS slots for each
    operation, and within LOGSIZE; but the guard of log_write() compares the slots in use with
    log.size - 1, and it does so before it looks whether the block has a slot already.  So an
    operation can panic inside its reservation, in two ways; the lemmas say exactly when. */
module LogPanics {
  import opened Blocks
  import opened Log
  import opened Params
  import opened LogCode

  /** The slots a log has room for before log_write() panics. */
  function Capacity(L: Layout): nat
    requires L.size >= 1
  {
    if L.size - 1 < LOGSIZE then L.size - 1 else LOGSIZE
  }

  /** In every state between steps the guard fires exactly when all slots are taken, whatever
      block is written: also for one that has a slot already. */
  lemma PanicsIffFull(L: Layout, disk: Disk, lh: seq<Word>, pinned: map<nat, Block>, used: map<nat, nat>)
    requires LogOk(L, disk, lh, pinned, used)
    ensures GuardFires(|lh|, L.size) <==> |lh| == Capacity(L)
  {
  }

  /** A write that needs a new slot, by an operation with an unspent reservation, never panics
      if and only if the log has at least LOGSIZE + 1 blocks. */
  lemma ReservationEnoughIff(L: Layout, disk: Disk)
    requires L.Fits(disk) && Empty(disk, L) && 2 * L.size <= |disk|
    ensures (forall lh, pinned, used, t: nat ::
               LogOk(L, disk, lh, pinned, used) && t in used && used[t] < MAXOPBLOCKS ==> !GuardFires(|lh|, L.size))
            <==> L.size >= LOGSIZE + 1
  {
    if L.size >= LOGSIZE + 1 {
      forall lh, pinned, used, t: nat | LogOk(L, disk, lh, pinned, used) && t in used && used[t] < MAXOPBLOCKS
        ensures !GuardFires(|lh|, L.size)
      {
        UnspentSplit(used, t);
        UnspentBounds(used - {t});
      }
    } else {
      var lh, pinned, used := FullLog(L, disk);
      assert 0 in used && used[0] < MAXOPBLOCKS;
    }
  }

  /** A log all of whose slots are taken while an operation has a reservation left. */
  lemma FullLog(L: Layout, disk: Disk) returns (lh: seq<Word>, pinned: map<nat, Block>, used: map<nat, nat>)
    requires L.Fits(disk) && Empty(disk, L) && 2 * L.size <= |disk| && L.size <= LOGSIZE
    ensures LogOk(L, disk, lh, pinned, used) && used == map[0 := MAXOPBLOCKS - 1] && GuardFires(|lh|, L.size)
  {
    lh := HomeBlocks(L, disk, L.size - 1);
    pinned := map b: nat | b in lh :: ZeroBlock();
    used := map[0 := MAXOPBLOCKS - 1];
    UnspentSplit(used, 0);
    assert used - {0} == map[];
  }

  /** The k-th block outside the log. */
  function HomeBlock(L: Layout, k: nat): nat { if k < L.start then k else k + L.size }

  function HomeBlocks(L: Layout, disk: Disk, n: nat): (r: seq<Word>)
    requires L.Fits(disk) && n + L.size <= |disk|
    ensures |r| == n && forall k :: 0 <= k < n ==> r[k] == HomeBlock(L, k)
  {
    seq(n, k requires 0 <= k < n => HomeBlock(L, k) as Word)
  }

  /** What each of three operations has spent when together they have taken n slots. */
  function Spent(t: nat, n: nat): nat {
    if n <= t * MAXOPBLOCKS then 0
    else if n >= (t + 1) * MAXOPBLOCKS then MAXOPBLOCKS
    else n - t * MAXOPBLOCKS
  }

  ghost function AllSpent(n: nat): map<nat, nat> { map[0 := Spent(0, n), 1 := Spent(1, n), 2 := Spent(2, n)] }

  lemma SpentStep(k: nat)
    requires k < LOGSIZE
    ensures k / MAXOPBLOCKS in AllSpent(k) && AllSpent(k)[k / MAXOPBLOCKS] < MAXOPBLOCKS
    ensures AllSpent(k)[k / MAXOPBLOCKS := AllSpent(k)[k / MAXOPBLOCKS] + 1] == AllSpent(k + 1)
  {
  }

  lemma HomeStep(L: Layout, disk: Disk, k: nat)
    requires L.Fits(disk) && k + 1 + L.size <= |disk|
    ensures HomeBlock(L, k) < |disk| && !L.Contains(HomeBlock(L, k))
            && HomeBlock(L, k) as Word !in HomeBlocks(L, disk, k)
    ensures HomeBlocks(L, disk, k) + [HomeBlock(L, k) as Word] == HomeBlocks(L, disk, k + 1)
  {
  }

  /** The log after boot and three admitted operations. */
  method ThreeAdmitted(L: Layout, disk: Disk) returns (s: LogState)
    requires WfLog(disk, L)
    ensures fresh(s) && s.Valid() && s.L == L && s.outstanding == 3 && |s.disk| == |disk| && s.lh == []
    ensures s.used == AllSpent(0)
  {
    s := new LogState(L, disk);
    var a := s.BeginOp(0);
    var b := s.BeginOp(1);
    var c := s.BeginOp(2);
    assert a && b && c;
  }

  /** The k-th call of log_write(), counted from 0. */
  method WriteNext(s: LogState, L: Layout, disk: Disk, k: nat)
    requires L.Fits(disk) && k < Capacity(L) && k + L.size < |disk|
    requires s.Valid() && s.L == L && s.outstanding == 3 && |s.disk| == |disk|
    requires s.lh == HomeBlocks(L, disk, k) && s.used == AllSpent(k)
    modifies s`lh, s`pinned, s`used
    ensures s.Valid() && s.lh == HomeBlocks(L, disk, k + 1) && s.used == AllSpent(k + 1)
  {
    hide LogOk;
    hide AllSpent;
    hide HomeBlock;
    SpentStep(k);
    HomeStep(L, disk, k);
    var panics := s.LogWrite(k / MAXOPBLOCKS, HomeBlock(L, k), ZeroBlock());
  }

  /** After n log_write() calls of different blocks, the first ten by the first operation, the
      next ten by the second and the rest by the third. */
  method ThreeOperations(L: Layout, disk: Disk, n: nat) returns (s: LogState)
    requires WfLog(disk, L) && n <= Capacity(L) && n + L.size <= |disk|
    ensures fresh(s) && s.Valid() && s.L == L && s.outstanding == 3 && |s.disk| == |disk|
    ensures s.lh == HomeBlocks(L, disk, n) && s.used == AllSpent(n)
  {
    s := ThreeAdmitted(L, disk);
    hide *;
    var k := 0;
    while k < n
      invariant 0 <= k <= n && fresh(s) && s.Valid() && s.L == L && s.outstanding == 3 && |s.disk| == |disk|
      invariant s.lh == HomeBlocks(L, disk, k) && s.used == AllSpent(k)
    {
      WriteNext(s, L, disk, k);
      k := k + 1;
    }
  }

  /** A run from boot on any log of at most LOGSIZE blocks, the one of mkfs among them, that
      panics on a new block although its operation was admitted and has a reservation left. */
  method PanicsOnReserved(L: Layout, disk: Disk) returns (s: LogState, t: nat, b: Word, panics: bool)
    requires WfLog(disk, L) && L.size <= LOGSIZE && 2 * L.size <= |disk|
    ensures s.Valid() && t in s.used && s.used[t] < MAXOPBLOCKS && b !in s.lh && b < |s.disk| && !L.Contains(b)
    ensures panics
  {
    var n := L.size - 1;
    SpentStep(n);
    HomeStep(L, disk, n);
    hide AllSpent;
    hide HomeBlocks;
    hide LogOk;
    hide WfLog;
    s := ThreeOperations(L, disk, n);
    t, b := n / MAXOPBLOCKS, HomeBlock(L, n);
    panics := s.LogWrite(t, b, ZeroBlock());
  }

  /** A run from boot on a log of any size that panics on a block which has its slot already
      and needs no other. */
  method PanicsOnAbsorbed(L: Layout, disk: Disk) returns (s: LogState, t: nat, b: Word, panics: bool)
    requires WfLog(disk, L) && L.size >= 2 && L.size + LOGSIZE <= |disk|
    ensures s.Valid() && t in s.used && b in s.lh && panics
  {
    s := ThreeOperations(L, disk, Capacity(L));
    t, b := 0, HomeBlock(L, 0);
    assert s.lh[0] == b;
    panics := s.LogWrite(t, b, ZeroBlock());
  }
}
