/** The buffer cache and the log together, as threads use them: every interleaving of
    reads, modifications, log_write, brelse, begin_op/end_op, the block writes of commit(),
    eviction, crashes and recovery.  The system is shown to be a flat, crash-safe store
    whose durable contents only ever jump to what was logged at a moment at which no operation
    was running.  Callers need not log what they change: writei() does not when its copy from
    user memory fails, and the store says what then becomes of the block. */
module BlockStore {
  import opened Blocks
  import opened Log
  import opened Params
  import opened Options

  // ---------------------------------------------------------------- the system

  /** A cached block.  refs are the threads that have a pointer to the buffer; its refcnt
      is their number plus one if pinned.  dirty says that the data was changed after it was
      last read from disk, logged or installed. */
  datatype Buf = Buf(data: Block, valid: bool, holder: Option<nat>, refs: set<nat>, pinned: bool, dirty: bool)

  datatype Phase =
    | Idle
    | WriteLog(i: nat)                     // commit(): log blocks before i are on disk
    | Install(i: nat)                      // commit(): header on disk, homes before i too
    | Boot                                 // after a crash, before read_head
    | Recover(slots: seq<Word>, i: nat)    // install_trans(1): homes before i are on disk

  datatype State = State(
    disk: Disk,
    cache: map<nat, Buf>,
    lh: seq<Word>,
    ops: set<nat>,                         // running operations; outstanding is their number
    phase: Phase)

  datatype Action =
    | Hit(t: nat, b: nat) | Miss(t: nat, b: nat) | Evict(b: nat)
    | Lock(t: nat, b: nat) | Fill(t: nat, b: nat)
    | ReadBuf(t: nat, b: nat) | Modify(t: nat, b: nat, v: Block)
    | LogWrite(t: nat, b: nat) | Release(t: nat, b: nat)
    | BeginOp(t: nat) | EndOp(t: nat)
    | CommitNothing | WriteLogBlock | WriteHead | InstallBlock | ClearHead
    | Crash | ReadHead | RecoverBlock | RecoverClear

  ghost predicate Held(s: State, t: nat, b: nat) {
    b in s.cache && s.cache[b].holder == Some(t)
  }

  /** No thread holds block b's sleep lock, so commit() can take it. */
  ghost predicate Unlocked(s: State, b: nat) {
    b in s.cache ==> s.cache[b].holder == None
  }

  ghost predicate IsHome(L: Layout, s: State, b: nat) {
    b < |s.disk| && !L.Contains(b)
  }

  ghost predicate Up(s: State) { s.phase.Idle? || s.phase.WriteLog? || s.phase.Install? }

  /** The cache after block b, if cached, was overwritten with v and written through. */
  ghost function Refresh(cache: map<nat, Buf>, b: nat, v: Block): map<nat, Buf> {
    if b in cache then cache[b := cache[b].(data := v, valid := true)] else cache
  }

  ghost function SetBuf(s: State, b: nat, f: Buf): State { s.(cache := s.cache[b := f]) }

  /** One step.  Callers modify only inside an operation. */
  ghost predicate Step(L: Layout, s: State, a: Action, s': State)
  {
    match a
    case Hit(t, b) =>
      && Up(s) && b in s.cache && t !in s.cache[b].refs
      && s' == SetBuf(s, b, s.cache[b].(refs := s.cache[b].refs + {t}))
    case Miss(t, b) =>
      && Up(s) && b < |s.disk| && b !in s.cache
      && s' == SetBuf(s, b, Buf(ZeroBlock(), false, None, {t}, false, false))
    case Evict(b) =>
      && Up(s) && b in s.cache && s.cache[b].refs == {} && !s.cache[b].pinned
      && s' == s.(cache := s.cache - {b})
    case Lock(t, b) =>
      && b in s.cache && t in s.cache[b].refs && s.cache[b].holder == None
      && s' == SetBuf(s, b, s.cache[b].(holder := Some(t)))
    case Fill(t, b) =>
      && Held(s, t, b) && b < |s.disk| && !s.cache[b].valid
      && s' == SetBuf(s, b, s.cache[b].(data := s.disk[b], valid := true))
    case ReadBuf(t, b) =>
      && Held(s, t, b) && s.cache[b].valid && IsHome(L, s, b)
      && s' == s
    case Modify(t, b, v) =>
      && Held(s, t, b) && s.cache[b].valid && t in s.ops && IsHome(L, s, b)
      && s' == SetBuf(s, b, s.cache[b].(data := v, dirty := true))
    case LogWrite(t, b) =>
      && Held(s, t, b) && s.cache[b].valid && t in s.ops && IsHome(L, s, b)
      && b < 0x1_0000_0000 && |s.lh| < LOGSIZE && |s.lh| < L.size - 1
      && s' == SetBuf(s, b, s.cache[b].(pinned := true, dirty := false)).(
                 lh := if b in s.lh then s.lh else s.lh + [b])
    case Release(t, b) =>
      && Held(s, t, b)
      && s' == SetBuf(s, b, s.cache[b].(holder := None, refs := s.cache[b].refs - {t}))
    case BeginOp(t) =>
      && s.phase.Idle? && t !in s.ops
      && |s.lh| + (|s.ops| + 1) * MAXOPBLOCKS <= LOGSIZE
      && s' == s.(ops := s.ops + {t})
    case EndOp(t) =>
      && s.phase.Idle? && t in s.ops
      && s' == s.(ops := s.ops - {t}, phase := if s.ops == {t} then WriteLog(0) else Idle)
    case CommitNothing =>
      && s.phase.WriteLog? && s.lh == []
      && s' == s.(phase := Idle)
    case WriteLogBlock =>
      && s.phase.WriteLog? && s.phase.i < |s.lh| && L.start + 1 + s.phase.i < |s.disk|
      && s.lh[s.phase.i] in s.cache && s.cache[s.lh[s.phase.i]].holder == None
      && var to, v := L.start + 1 + s.phase.i, s.cache[s.lh[s.phase.i]].data;
      && Unlocked(s, to)
      && s' == s.(disk := s.disk[to := v], cache := Refresh(s.cache, to, v), phase := WriteLog(s.phase.i + 1))
    case WriteHead =>
      && s.phase.WriteLog? && s.phase.i == |s.lh| && 0 < |s.lh| < WORDS && L.start < |s.disk|
      && Unlocked(s, L.start)
      && var h := PutHeader(s.disk[L.start], s.lh);
      && s' == s.(disk := s.disk[L.start := h], cache := Refresh(s.cache, L.start, h), phase := Install(0))
    case InstallBlock =>
      && s.phase.Install? && s.phase.i < |s.lh| && L.start + 1 + s.phase.i < |s.disk|
      && var to, v := s.lh[s.phase.i], s.disk[L.start + 1 + s.phase.i];
      && to < |s.disk| && to in s.cache && Unlocked(s, to)
      && s' == SetBuf(s, to, s.cache[to].(data := v, pinned := false, dirty := false)).(
                 disk := s.disk[to := v], phase := Install(s.phase.i + 1))
    case ClearHead =>
      && s.phase.Install? && s.phase.i == |s.lh| && L.start < |s.disk|
      && Unlocked(s, L.start)
      && var h := PutHeader(s.disk[L.start], []);
      && s' == s.(disk := s.disk[L.start := h], cache := Refresh(s.cache, L.start, h), lh := [], phase := Idle)
    case Crash =>
      s' == State(s.disk, map[], [], {}, Boot)
    case ReadHead =>
      && s.phase.Boot? && L.start < |s.disk| && GetWord(s.disk[L.start], 0) < WORDS
      && s' == s.(phase := Recover(GetHeader(s.disk[L.start]), 0))
    case RecoverBlock =>
      && s.phase.Recover? && s.phase.i < |s.phase.slots| && L.start + 1 + s.phase.i < |s.disk|
      && s.phase.slots[s.phase.i] < |s.disk|
      && s' == s.(disk := s.disk[s.phase.slots[s.phase.i] := s.disk[L.start + 1 + s.phase.i]],
                  phase := Recover(s.phase.slots, s.phase.i + 1))
    case RecoverClear =>
      && s.phase.Recover? && s.phase.i == |s.phase.slots| && L.start < |s.disk|
      && s' == s.(disk := s.disk[L.start := PutHeader(s.disk[L.start], [])], phase := Idle)
  }

  // ---------------------------------------------------------------- the flat store

  /** What clients see: the current contents, what a crash would fall back to, the running
      operations, and the blocks logged since the last commit. */
  datatype Store = Store(cur: map<nat, Block>, dur: map<nat, Block>, active: set<nat>, logged: set<Word>)

  datatype Event =
    | Tau | Get(b: nat, v: Block) | Put(t: nat, b: nat, v: Block) | Save(t: nat, w: Word) | Forget(b: nat)
    | Begin(t: nat) | End(t: nat) | Durable | Lose

  /** What a commit makes durable: the current contents of the logged blocks. */
  ghost function Saved(a: Store): map<nat, Block> {
    map b | b in a.cur :: if b in a.dur && b !in a.logged then a.dur[b] else a.cur[b]
  }

  ghost predicate StoreStep(a: Store, e: Event, a': Store) {
    match e
    case Tau => a' == a
    case Get(b, v) => b in a.cur && v == a.cur[b] && a' == a
    case Put(t, b, v) => t in a.active && b in a.cur && a' == a.(cur := a.cur[b := v])
    case Save(t, b) => t in a.active && a' == a.(logged := a.logged + {b})
    case Forget(b) =>
      b !in a.logged && a' == if b in a.cur && b in a.dur then a.(cur := a.cur[b := a.dur[b]]) else a
    case Begin(t) => t !in a.active && a' == a.(active := a.active + {t})
    case End(t) => t in a.active && a' == a.(active := a.active - {t})
    case Durable => a.active == {} && a' == a.(dur := Saved(a), logged := {})
    case Lose => a' == Store(a.dur, a.dur, {}, {})
  }

  ghost function EventOf(s: State, a: Action): Event {
    match a
    case ReadBuf(t, b) => if b in s.cache then Get(b, s.cache[b].data) else Tau
    case Modify(t, b, v) => Put(t, b, v)
    case LogWrite(t, b) => if b < 0x1_0000_0000 then Save(t, b) else Tau
    case Evict(b) => Forget(b)
    case BeginOp(t) => Begin(t)
    case EndOp(t) => End(t)
    case WriteHead => Durable
    case Crash => Lose
    case _ => Tau
  }

  ghost function HomeOf(L: Layout, d: Disk): map<nat, Block> {
    map b | 0 <= b < |d| && !L.Contains(b) :: d[b]
  }

  /** A reader of block b gets the cached copy if there is a valid one, else the disk's. */
  ghost function Latest(s: State, b: nat): Block
    requires b < |s.disk|
  {
    if b in s.cache && s.cache[b].valid then s.cache[b].data else s.disk[b]
  }

  ghost function Dur(L: Layout, s: State): map<nat, Block>
    requires WfLog(s.disk, L)
  {
    HomeOf(L, View(s.disk, L))
  }

  ghost function Cur(L: Layout, s: State): map<nat, Block>
    requires WfLog(s.disk, L)
  {
    if Up(s) then map b | 0 <= b < |s.disk| && !L.Contains(b) :: Latest(s, b) else Dur(L, s)
  }

  ghost function Abs(L: Layout, s: State): Store
    requires WfLog(s.disk, L)
  {
    Store(Cur(L, s), Dur(L, s), s.ops, Logged(s))
  }

  /** The blocks that the next header write makes durable. */
  ghost function Logged(s: State): set<Word> {
    if s.phase.Idle? || s.phase.WriteLog? then set w | w in s.lh else {}
  }

  // ---------------------------------------------------------------- the invariant

  /** The first slot whose buffer commit() has not yet written home. */
  ghost function From(s: State): nat {
    match s.phase
    case Idle => 0
    case WriteLog(_) => 0
    case Install(i) => i
    case _ => |s.lh|
  }

  ghost predicate Pending(s: State, b: nat) {
    exists j :: From(s) <= j < |s.lh| && s.lh[j] == b
  }

  ghost predicate BufOk(L: Layout, s: State, b: nat)
    requires b in s.cache
  {
    var f := s.cache[b];
    && b < |s.disk|
    && (f.holder.Some? ==> f.holder.value in f.refs)
    && (f.dirty ==> f.valid && !L.Contains(b))
    && (f.pinned ==> f.valid && Pending(s, b))
    && (f.valid && !f.pinned && !f.dirty ==> f.data == s.disk[b])
  }

  ghost predicate CacheOk(L: Layout, s: State) {
    && (forall b :: b in s.cache ==> BufOk(L, s, b))
    && (forall j :: From(s) <= j < |s.lh| ==> s.lh[j] in s.cache && s.cache[s.lh[j]].pinned)
  }

  /** The disk block of log slot j. */
  ghost function SlotBlock(L: Layout, j: nat): nat { L.start + 1 + j }

  ghost predicate PhaseOk(L: Layout, s: State)
    requires WfLog(s.disk, L) && WfSlots(s.disk, L, s.lh) && CacheOk(L, s)
  {
    match s.phase
    case Idle => Empty(s.disk, L)
    case WriteLog(i) =>
      && s.ops == {} && Empty(s.disk, L) && i <= |s.lh|
      && forall j :: 0 <= j < i ==> s.disk[SlotBlock(L, j)] == s.cache[s.lh[j]].data
    case Install(i) =>
      && s.ops == {} && i <= |s.lh| && GetHeader(s.disk[L.start]) == s.lh
      && (forall j :: 0 <= j < i ==> s.disk[s.lh[j]] == s.disk[SlotBlock(L, j)])
      && (forall j :: i <= j < |s.lh| ==> s.cache[s.lh[j]].data == s.disk[SlotBlock(L, j)])
    case Boot => s.cache == map[] && s.lh == [] && s.ops == {}
    case Recover(slots, i) =>
      && s.cache == map[] && s.lh == [] && s.ops == {}
      && i <= |slots| && slots == GetHeader(s.disk[L.start])
      && forall j :: 0 <= j < i ==> s.disk[slots[j]] == s.disk[SlotBlock(L, j)]
  }

  ghost predicate Inv(L: Layout, s: State) {
    && WfLog(s.disk, L) && WfSlots(s.disk, L, s.lh)
    && CacheOk(L, s)
    && PhaseOk(L, s)
  }

  /** The state initlog() starts from: a disk with a well-formed log, nothing cached. */
  ghost predicate Init(L: Layout, s: State) {
    WfLog(s.disk, L) && s == State(s.disk, map[], [], {}, Boot)
  }

  // ---------------------------------------------------------------- single disk writes

  lemma HomeExt(L: Layout, d: Disk, e: Disk)
    requires SameHome(L, d, e)
    ensures HomeOf(L, d) == HomeOf(L, e)
  {
  }

  lemma LogBlockWritten(L: Layout, d: Disk, b: nat, v: Block)
    requires WfLog(d, L) && Empty(d, L) && L.Contains(b) && b != L.start
    ensures var e := d[b := v];
            && WfLog(e, L) && Empty(e, L)
            && HomeOf(L, View(e, L)) == HomeOf(L, View(d, L)) && HomeOf(L, e) == HomeOf(L, d)
  {
    var e := d[b := v];
    EmptyView(d, L);
    EmptyView(e, L);
    HomeExt(L, d, e);
  }

  /** The header write makes the overlaid disk the durable one. */
  lemma HeadWritten(L: Layout, d: Disk, slots: seq<Word>)
    requires WfLog(d, L) && WfSlots(d, L, slots)
    ensures var e := d[L.start := PutHeader(d[L.start], slots)];
            && WfLog(e, L) && GetHeader(e[L.start]) == slots
            && (forall j :: 0 <= j < |slots| ==> View(e, L)[slots[j]] == d[SlotBlock(L, j)])
            && (forall b :: 0 <= b < |d| && b != L.start && b !in slots ==> View(e, L)[b] == d[b])
  {
    var e := d[L.start := PutHeader(d[L.start], slots)];
    HeaderRoundTrip(d[L.start], slots);
    var vals := LoggedData(e, L);
    forall j | 0 <= j < |slots|
      ensures View(e, L)[slots[j]] == d[SlotBlock(L, j)]
    {
      OverlayAt(e, slots, vals, j);
    }
    forall b | 0 <= b < |d| && b != L.start && b !in slots
      ensures View(e, L)[b] == d[b]
    {
      OverlayElse(e, slots, vals, b);
    }
  }

  lemma BlockInstalled(L: Layout, d: Disk, i: nat)
    requires WfLog(d, L) && i < |GetHeader(d[L.start])|
    ensures var slots := GetHeader(d[L.start]);
            var e := d[slots[i] := d[L.start + 1 + i]];
            && e[L.start] == d[L.start] && WfLog(e, L)
            && (forall b :: 0 <= b < |d| && L.Contains(b) ==> e[b] == d[b])
            && HomeOf(L, View(e, L)) == HomeOf(L, View(d, L))
  {
    var slots := GetHeader(d[L.start]);
    var e := d[slots[i] := d[L.start + 1 + i]];
    assert L.Contains(L.start);
    assert forall b :: 0 <= b < |d| && L.Contains(b) ==> e[b] == d[b];
    assert LoggedData(e, L) == LoggedData(d, L);
    OverlayAgree(L, d, e, slots, LoggedData(d, L));
    HomeExt(L, View(e, L), View(d, L));
  }

  /** Installing a block leaves the log's own blocks alone. */
  lemma SlotsKept(L: Layout, d: Disk, i: nat)
    requires WfLog(d, L) && i < |GetHeader(d[L.start])|
    ensures var slots := GetHeader(d[L.start]);
            var e := d[slots[i] := d[L.start + 1 + i]];
            forall j :: 0 <= j < |slots| ==> SlotBlock(L, j) < |d| && e[SlotBlock(L, j)] == d[SlotBlock(L, j)]
  {
    var slots := GetHeader(d[L.start]);
    hide GetHeader;
    forall j | 0 <= j < |slots|
      ensures SlotBlock(L, j) < |d| && L.Contains(SlotBlock(L, j))
    {
    }
  }

  /** Erasing the header of a fully installed log changes nothing that matters. */
  lemma HeadCleared(L: Layout, d: Disk)
    requires WfLog(d, L)
    requires var slots := GetHeader(d[L.start]);
             forall j :: 0 <= j < |slots| ==> d[slots[j]] == d[L.start + 1 + j]
    ensures var e := d[L.start := PutHeader(d[L.start], [])];
            && WfLog(e, L) && Empty(e, L)
            && HomeOf(L, View(e, L)) == HomeOf(L, View(d, L)) && HomeOf(L, View(e, L)) == HomeOf(L, e)
  {
    hide View;
    var e := d[L.start := PutHeader(d[L.start], [])];
    HeaderRoundTrip(d[L.start], []);
    hide PutHeader;
    EmptyView(e, L);
    var slots := GetHeader(d[L.start]);
    hide GetHeader;
    forall b | 0 <= b < |d| && !L.Contains(b)
      ensures HomeOf(L, View(d, L))[b] == e[b]
    {
      if b in slots {
        var j :| 0 <= j < |slots| && slots[j] == b;
        SlotDurable(L, d, j);
      } else {
        OtherDurable(L, d, b);
      }
    }
  }

  // ---------------------------------------------------------------- every step

  /** What each step must do: keep the invariant and be a step of the flat store. */
  ghost predicate Simulates(L: Layout, s: State, a: Action, s': State)
    requires WfLog(s.disk, L)
  {
    Inv(L, s') && StoreStep(Abs(L, s), EventOf(s, a), Abs(L, s'))
  }

  /** A step that clients do not see. */
  lemma Unseen(L: Layout, s: State, a: Action, s': State)
    requires WfLog(s.disk, L) && Inv(L, s') && EventOf(s, a) == Tau
    requires Cur(L, s') == Cur(L, s) && Dur(L, s') == Dur(L, s) && s'.ops == s.ops && Logged(s') == Logged(s)
    ensures Simulates(L, s, a, s')
  {
    hide Inv;
    hide Cur;
    hide Dur;
    hide Logged;
  }

  /** s' differs from s in the cache entry of block b only. */
  ghost predicate OnlyBuf(s: State, s': State, b: nat) {
    && s' == s.(cache := s'.cache)
    && s'.cache - {b} == s.cache - {b}
  }

  lemma SameCur(L: Layout, s: State, s': State)
    requires WfLog(s.disk, L) && WfLog(s'.disk, L) && Up(s) && Up(s') && |s.disk| == |s'.disk|
    requires forall b :: 0 <= b < |s.disk| && !L.Contains(b) ==> Latest(s', b) == Latest(s, b)
    ensures Cur(L, s') == Cur(L, s)
  {
  }

  lemma OtherBufs(s: State, s': State, b: nat)
    requires OnlyBuf(s, s', b)
    ensures forall c :: c != b ==> (c in s'.cache <==> c in s.cache)
    ensures forall c :: c != b && c in s.cache ==> s'.cache[c] == s.cache[c]
  {
    forall c | c != b
      ensures c in s'.cache <==> c in s.cache
      ensures c in s.cache ==> s'.cache[c] == s.cache[c]
    {
      assert c in s'.cache - {b} <==> c in s'.cache;
      assert c in s.cache - {b} <==> c in s.cache;
      if c in s.cache {
        assert (s'.cache - {b})[c] == (s.cache - {b})[c];
      }
    }
  }

  lemma OneBufCache(L: Layout, s: State, s': State, b: nat)
    requires CacheOk(L, s) && OnlyBuf(s, s', b)
    requires b in s'.cache ==> BufOk(L, s', b)
    requires b in s.cache && s.cache[b].pinned ==> b in s'.cache && s'.cache[b].pinned
    ensures CacheOk(L, s')
  {
    OtherBufs(s, s', b);
    forall c | c in s'.cache
      ensures BufOk(L, s', c)
    {
      if c != b {
        assert BufOk(L, s, c);
        if s.cache[c].pinned {
          var j :| From(s) <= j < |s.lh| && s.lh[j] == c;
          assert s'.lh[j] == c;
        }
      }
    }
  }

  /** A change to one buffer keeps the invariant if that buffer stays in order and a
      pinned one stays pinned and, during commit(), keeps its data. */
  lemma OneBuf(L: Layout, s: State, s': State, b: nat)
    requires Inv(L, s) && Up(s) && OnlyBuf(s, s', b)
    requires b in s'.cache ==> BufOk(L, s', b)
    requires b in s.cache && s.cache[b].pinned ==> b in s'.cache && s'.cache[b].pinned
    requires b in s.cache && s.cache[b].pinned && s.phase != Idle ==> s'.cache[b].data == s.cache[b].data
    ensures Inv(L, s')
  {
    hide View;
    hide HomeOf;
    hide GetHeader;
    hide BufOk;
    hide WfLog;
    OneBufCache(L, s, s', b);
    OtherBufs(s, s', b);
    hide OnlyBuf;
    assert forall j :: From(s) <= j < |s.lh| && s.phase != Idle ==> s'.cache[s.lh[j]].data == s.cache[s.lh[j]].data;
  }

  lemma HitStep(L: Layout, s: State, a: Action, s': State)
    requires Inv(L, s) && Step(L, s, a, s') && (a.Hit? || a.Lock? || a.Release?)
    ensures Simulates(L, s, a, s')
  {
    hide View;
    hide HomeOf;
    hide GetHeader;
    assert BufOk(L, s, a.b);
    assert OnlyBuf(s, s', a.b);
    OneBuf(L, s, s', a.b);
    hide Inv;
    hide WfLog;
    SameCur(L, s, s');
    SameDur(L, s, s');
    Unseen(L, s, a, s');
  }

  lemma MissStep(L: Layout, s: State, a: Action, s': State)
    requires Inv(L, s) && Step(L, s, a, s') && (a.Miss? || a.Fill?)
    ensures Simulates(L, s, a, s')
  {
    hide View;
    hide HomeOf;
    hide GetHeader;
    assert a.b in s.cache ==> BufOk(L, s, a.b);
    assert OnlyBuf(s, s', a.b);
    OneBuf(L, s, s', a.b);
    SameCur(L, s, s');
    SameDur(L, s, s');
    Unseen(L, s, a, s');
  }

  /** The durable contents of a block that is not pinned are on its home block. */
  lemma UnpinnedDurable(L: Layout, s: State, b: nat)
    requires Inv(L, s) && Up(s) && b < |s.disk| && !L.Contains(b) && (b in s.cache ==> !s.cache[b].pinned)
    ensures b in Dur(L, s) && Dur(L, s)[b] == s.disk[b] && b !in Logged(s)
  {
    hide GetHeader;
    hide BufOk;
    hide View;
    var slots := GetHeader(s.disk[L.start]);
    if !s.phase.Install? {
      EmptyView(s.disk, L);
    } else if b in slots {
      var j :| 0 <= j < |slots| && slots[j] == b;
      SlotDurable(L, s.disk, j);
    } else {
      OtherDurable(L, s.disk, b);
    }
  }

  lemma OtherDurable(L: Layout, d: Disk, b: nat)
    requires WfLog(d, L) && b < |d| && !L.Contains(b) && b !in GetHeader(d[L.start])
    ensures b in HomeOf(L, View(d, L)) && HomeOf(L, View(d, L))[b] == d[b]
  {
    hide GetHeader;
    OverlayElse(d, GetHeader(d[L.start]), LoggedData(d, L), b);
  }

  /** Recycling an unreferenced buffer loses what was changed in it and not logged, and nothing
      else: the block falls back to its durable contents. */
  lemma EvictStep(L: Layout, s: State, a: Action, s': State)
    requires Inv(L, s) && Step(L, s, a, s') && a.Evict?
    ensures Simulates(L, s, a, s')
    ensures Cur(L, s') == Cur(L, s) <==> s.cache[a.b].valid && a.b in Cur(L, s) ==> s.cache[a.b].data == s.disk[a.b]
    ensures Cur(L, s') != Cur(L, s) ==> s.cache[a.b].dirty
  {
    hide View;
    hide HomeOf;
    hide GetHeader;
    hide Dur;
    assert BufOk(L, s, a.b);
    assert OnlyBuf(s, s', a.b);
    OneBuf(L, s, s', a.b);
    EvictCur(L, s, a.b, s');
    if L.Contains(a.b) {
      NotLogged(L, s, a.b);
    } else {
      UnpinnedDurable(L, s, a.b);
    }
    SameDur(L, s, s');
  }

  lemma NotLogged(L: Layout, s: State, b: nat)
    requires Inv(L, s) && L.Contains(b)
    ensures b !in Logged(s)
  {
  }

  lemma SameDur(L: Layout, s: State, s': State)
    requires s'.disk == s.disk && WfLog(s.disk, L)
    ensures Dur(L, s') == Dur(L, s)
  {
  }

  lemma EvictCur(L: Layout, s: State, b: nat, s': State)
    requires WfLog(s.disk, L) && Up(s) && b < |s.disk| && s' == s.(cache := s.cache - {b})
    ensures Cur(L, s') == if L.Contains(b) then Cur(L, s) else Cur(L, s)[b := s.disk[b]]
    ensures !L.Contains(b) ==> b in Cur(L, s) && Cur(L, s)[b] == Latest(s, b)
    ensures L.Contains(b) ==> b !in Cur(L, s)
  {
    hide View;
    hide HomeOf;
  }

  lemma ReadStep(L: Layout, s: State, a: Action, s': State)
    requires Inv(L, s) && Step(L, s, a, s') && a.ReadBuf?
    ensures Simulates(L, s, a, s')
  {
    hide View;
    hide HomeOf;
    hide GetHeader;
    assert BufOk(L, s, a.b);
    assert Up(s);
    assert Cur(L, s)[a.b] == Latest(s, a.b);
  }

  lemma ModifyStep(L: Layout, s: State, a: Action, s': State)
    requires Inv(L, s) && Step(L, s, a, s') && a.Modify?
    ensures Simulates(L, s, a, s')
  {
    hide View;
    hide HomeOf;
    hide GetHeader;
    assert BufOk(L, s, a.b);
    assert s.phase.Idle?;
    assert OnlyBuf(s, s', a.b);
    OneBuf(L, s, s', a.b);
    assert Cur(L, s') == Cur(L, s)[a.b := a.v];
  }

  lemma LogWriteCache(L: Layout, s: State, a: Action, s': State)
    requires CacheOk(L, s) && Step(L, s, a, s') && a.LogWrite? && s.phase.Idle?
    ensures CacheOk(L, s')
  {
    forall b | b in s'.cache
      ensures BufOk(L, s', b)
    {
      assert BufOk(L, s, b);
      if s.cache[b].pinned {
        var j :| From(s) <= j < |s.lh| && s.lh[j] == b;
        assert s'.lh[j] == b;
      } else if b == a.b {
        assert b in s'.lh;
      }
    }
  }

  lemma LogWriteSlots(L: Layout, s: State, a: Action, s': State)
    requires Inv(L, s) && Step(L, s, a, s') && a.LogWrite?
    ensures s.phase.Idle? && s'.phase.Idle? && s'.disk == s.disk && s'.ops == s.ops && WfSlots(s'.disk, L, s'.lh)
    ensures a.b < 0x1_0000_0000 && a.t in s.ops && Logged(s') == Logged(s) + {a.b as Word}
    ensures forall b :: 0 <= b < |s.disk| ==> Latest(s', b) == Latest(s, b)
  {
    hide CacheOk;
    hide WfLog;
    hide PutHeader;
    hide GetHeader;
  }

  lemma LogWriteStep(L: Layout, s: State, a: Action, s': State)
    requires Inv(L, s) && Step(L, s, a, s') && a.LogWrite?
    ensures Simulates(L, s, a, s')
  {
    hide View;
    hide HomeOf;
    hide GetHeader;
    LogWriteSlots(L, s, a, s');
    LogWriteCache(L, s, a, s');
    hide CacheOk;
    hide Latest;
    hide Logged;
    hide WfSlots;
    hide WfLog;
    SameCur(L, s, s');
    SameDur(L, s, s');
    assert Inv(L, s');
    hide Cur;
    hide Dur;
    hide Inv;
    hide Step;
  }

  lemma OpSteps(L: Layout, s: State, a: Action, s': State)
    requires Inv(L, s) && Step(L, s, a, s')
    requires a.BeginOp? || a.EndOp? || a.CommitNothing?
    ensures Simulates(L, s, a, s')
  {
    hide CacheOk;
    hide WfLog;
    hide WfSlots;
    hide Latest;
    hide PhaseOk;
    OpFrame(L, s, a, s');
    OpCache(L, s, a, s');
    hide Step;
    OpPhase(L, s, a, s');
    SameLatest(s, s');
    SameCur(L, s, s');
    SameDur(L, s, s');
    OpSeen(L, s, a, s');
  }

  lemma OpSeen(L: Layout, s: State, a: Action, s': State)
    requires WfLog(s.disk, L) && Inv(L, s') && Cur(L, s') == Cur(L, s) && Dur(L, s') == Dur(L, s)
    requires Logged(s') == Logged(s) && (a.BeginOp? || a.EndOp? || a.CommitNothing?)
    requires a.BeginOp? ==> a.t !in s.ops && s'.ops == s.ops + {a.t}
    requires a.EndOp? ==> a.t in s.ops && s'.ops == s.ops - {a.t}
    requires a.CommitNothing? ==> s'.ops == s.ops
    ensures Simulates(L, s, a, s')
  {
    hide Inv;
    hide Cur;
    hide Dur;
    hide Logged;
    hide WfLog;
  }

  lemma OpFrame(L: Layout, s: State, a: Action, s': State)
    requires Step(L, s, a, s') && (a.BeginOp? || a.EndOp? || a.CommitNothing?)
    ensures s' == s.(ops := s'.ops, phase := s'.phase) && Up(s) && Up(s') && Logged(s') == Logged(s)
    ensures a.BeginOp? ==> a.t !in s.ops && s'.ops == s.ops + {a.t} && s.phase.Idle? && s'.phase.Idle?
    ensures a.EndOp? ==> a.t in s.ops && s'.ops == s.ops - {a.t} && s.phase.Idle?
    ensures a.EndOp? ==> s'.phase.Idle? || (s'.ops == {} && s'.phase == WriteLog(0))
    ensures a.CommitNothing? ==> s'.ops == s.ops && s.phase.WriteLog? && s.lh == [] && s'.phase.Idle?
  {
    if a.EndOp? && s.ops == {a.t} {
      assert s.ops - {a.t} == {};
    }
  }

  lemma OpPhase(L: Layout, s: State, a: Action, s': State)
    requires Inv(L, s) && CacheOk(L, s') && s' == s.(ops := s'.ops, phase := s'.phase)
    requires s.phase.Idle? || s.phase.WriteLog?
    requires s'.phase.Idle? || (s'.ops == {} && s'.phase == WriteLog(0))
    ensures PhaseOk(L, s')
  {
    hide CacheOk;
    hide WfLog;
    hide WfSlots;
    hide Empty;
  }

  lemma OpCache(L: Layout, s: State, a: Action, s': State)
    requires CacheOk(L, s) && Step(L, s, a, s')
    requires a.BeginOp? || a.EndOp? || a.CommitNothing?
    ensures CacheOk(L, s')
  {
    forall b | b in s'.cache
      ensures BufOk(L, s', b)
    {
      assert BufOk(L, s, b);
      if s.cache[b].pinned {
        var j :| From(s) <= j < |s.lh| && s.lh[j] == b;
        assert s'.lh[j] == b;
      }
    }
  }

  lemma SameLatest(s: State, s': State)
    requires s'.disk == s.disk && s'.cache == s.cache
    ensures forall b :: 0 <= b < |s.disk| ==> Latest(s', b) == Latest(s, b)
  {
  }

  lemma WriteLogBlockCache(L: Layout, s: State, a: Action, s': State)
    requires Inv(L, s) && Step(L, s, a, s') && a.WriteLogBlock?
    ensures CacheOk(L, s')
  {
    assert L.Contains(SlotBlock(L, s.phase.i));
    forall b | b in s'.cache
      ensures BufOk(L, s', b)
    {
      KeepBuf(L, s, s', b);
    }
  }

  lemma WriteLogBlockDisk(L: Layout, s: State, a: Action, s': State)
    requires Inv(L, s) && Step(L, s, a, s') && a.WriteLogBlock?
    ensures WfLog(s'.disk, L) && Empty(s'.disk, L) && Dur(L, s') == Dur(L, s)
  {
    var to := SlotBlock(L, s.phase.i);
    assert L.Contains(to);
    LogBlockWritten(L, s.disk, to, s.cache[s.lh[s.phase.i]].data);
  }

  lemma WriteLogBlockPhase(L: Layout, s: State, a: Action, s': State)
    requires Inv(L, s) && Step(L, s, a, s') && a.WriteLogBlock?
    requires WfLog(s'.disk, L) && WfSlots(s'.disk, L, s'.lh) && CacheOk(L, s') && Empty(s'.disk, L)
    ensures PhaseOk(L, s')
  {
    hide View;
    hide HomeOf;
    hide GetHeader;
    hide BufOk;
    assert L.Contains(SlotBlock(L, s.phase.i));
    assert forall j :: 0 <= j < s.phase.i ==> s'.disk[SlotBlock(L, j)] == s.disk[SlotBlock(L, j)];
  }

  lemma WriteLogBlockStep(L: Layout, s: State, a: Action, s': State)
    requires Inv(L, s) && Step(L, s, a, s') && a.WriteLogBlock?
    ensures Simulates(L, s, a, s')
  {
    hide View;
    hide HomeOf;
    hide GetHeader;
    WriteLogBlockDisk(L, s, a, s');
    WriteLogBlockCache(L, s, a, s');
    WriteLogBlockPhase(L, s, a, s');
    assert L.Contains(SlotBlock(L, s.phase.i));
    hide CacheOk;
    hide WfLog;
    hide PhaseOk;
    hide WfSlots;
    SameCur(L, s, s');
    assert Inv(L, s');
    hide Cur;
    hide Dur;
    Unseen(L, s, a, s');
  }

  /** A buffer and its place among the slots are untouched. */
  lemma KeepBuf(L: Layout, s: State, s': State, b: nat)
    requires CacheOk(L, s) && b in s.cache && b in s'.cache && s'.lh == s.lh && s'.ops == s.ops
    requires |s'.disk| == |s.disk|
    requires s'.cache[b] == s.cache[b].(data := s'.cache[b].data, valid := s'.cache[b].valid)
    requires || (s'.cache[b] == s.cache[b] && (b < |s.disk| ==> s'.disk[b] == s.disk[b]))
             || (b < |s.disk| && s'.cache[b].valid && s'.cache[b].data == s'.disk[b] && b !in s.lh)
    requires b in s.lh ==> From(s') == From(s)
    ensures BufOk(L, s', b)
  {
    assert BufOk(L, s, b);
    if s.cache[b].pinned {
      var j :| From(s) <= j < |s.lh| && s.lh[j] == b;
      assert s'.lh[j] == b;
    }
  }

  lemma WriteHeadCache(L: Layout, s: State, a: Action, s': State)
    requires Inv(L, s) && Step(L, s, a, s') && a.WriteHead?
    ensures CacheOk(L, s')
  {
    assert L.Contains(L.start);
    forall b | b in s'.cache
      ensures BufOk(L, s', b)
    {
      KeepBuf(L, s, s', b);
    }
  }

  lemma WriteHeadDurable(L: Layout, s: State, a: Action, s': State)
    requires Inv(L, s) && Step(L, s, a, s') && a.WriteHead?
    ensures WfLog(s'.disk, L) && GetHeader(s'.disk[L.start]) == s.lh
    ensures Dur(L, s') == Saved(Abs(L, s))
  {
    hide View;
    hide PutHeader;
    hide GetHeader;
    hide Latest;
    hide CacheOk;
    hide WfLog;
    HeadWritten(L, s.disk, s.lh);
    var d := View(s'.disk, L);
    forall b | 0 <= b < |s.disk| && !L.Contains(b)
      ensures d[b] == if b in Logged(s) then Latest(s, b) else Dur(L, s)[b]
    {
      LoggedIsLatest(L, s, d, b);
    }
  }

  /** Once every pending buffer is in the log, log and disk together hold what was logged. */
  lemma LoggedIsLatest(L: Layout, s: State, d: Disk, b: nat)
    requires Inv(L, s) && s.phase.WriteLog? && s.phase.i == |s.lh| && |d| == |s.disk|
    requires forall j :: 0 <= j < |s.lh| ==> d[s.lh[j]] == s.disk[SlotBlock(L, j)]
    requires forall c :: 0 <= c < |d| && c != L.start && c !in s.lh ==> d[c] == s.disk[c]
    requires b < |s.disk| && !L.Contains(b)
    ensures d[b] == if b in Logged(s) then Latest(s, b) else Dur(L, s)[b]
  {
    EmptyView(s.disk, L);
    if b in s.lh {
      var j :| 0 <= j < |s.lh| && s.lh[j] == b;
      assert BufOk(L, s, b);
    }
  }

  lemma WriteHeadInv(L: Layout, s: State, a: Action, s': State)
    requires Inv(L, s) && Step(L, s, a, s') && a.WriteHead? && CacheOk(L, s')
    requires WfLog(s'.disk, L) && GetHeader(s'.disk[L.start]) == s.lh
    ensures Inv(L, s') && s.ops == {} && s'.ops == {} && Logged(s') == {}
  {
    hide View;
    hide PutHeader;
    hide GetHeader;
    hide BufOk;
    assert L.Contains(L.start);
  }

  /** The commit point: the logged blocks become durable, and no operation is half way
      through. */
  lemma WriteHeadStep(L: Layout, s: State, a: Action, s': State)
    requires Inv(L, s) && Step(L, s, a, s') && a.WriteHead?
    ensures Simulates(L, s, a, s')
  {
    hide View;
    hide PutHeader;
    hide GetHeader;
    WriteHeadCache(L, s, a, s');
    WriteHeadDurable(L, s, a, s');
    assert L.Contains(L.start);
    hide BufOk;
    assert Cur(L, s') == Cur(L, s) by { SameCur(L, s, s'); }
    WriteHeadInv(L, s, a, s');
    hide Inv;
    hide Cur;
    hide Dur;
    hide Saved;
  }

  lemma InstallBlockCache(L: Layout, s: State, s': State, i: nat, v: Block)
    requires CacheOk(L, s) && WfSlots(s.disk, L, s.lh) && s.phase == Install(i) && i < |s.lh|
    requires var to, f := s.lh[i], s.cache[s.lh[i]];
             s' == State(s.disk[to := v], s.cache[to := f.(data := v, pinned := false, dirty := false)], s.lh, s.ops,
                         Install(i + 1))
    ensures CacheOk(L, s')
  {
    forall b | b in s'.cache
      ensures BufOk(L, s', b)
    {
      assert BufOk(L, s, b);
      if s'.cache[b].pinned {
        var j :| From(s) <= j < |s.lh| && s.lh[j] == b;
        assert s'.lh[j] == b;
      }
    }
  }

  lemma InstallBlockPhase(L: Layout, s: State, s': State, i: nat)
    requires Inv(L, s) && s.phase == Install(i) && i < |s.lh|
    requires s'.lh == s.lh && s'.ops == s.ops && s'.phase == Install(i + 1)
    requires s'.disk == s.disk[s.lh[i] := s.disk[SlotBlock(L, i)]]
    requires forall b :: b in s.cache && b != s.lh[i] ==> b in s'.cache && s'.cache[b] == s.cache[b]
    requires WfLog(s'.disk, L) && WfSlots(s'.disk, L, s'.lh) && CacheOk(L, s')
    requires s'.disk[L.start] == s.disk[L.start]
    ensures PhaseOk(L, s')
  {
    hide View;
    hide HomeOf;
    hide GetHeader;
    hide BufOk;
    forall j | 0 <= j < |s.lh|
      ensures s'.disk[SlotBlock(L, j)] == s.disk[SlotBlock(L, j)]
    {
      assert L.Contains(SlotBlock(L, j));
    }
    hide WfLog;
  }

  lemma InstallBlockLatest(L: Layout, s: State, a: Action, s': State)
    requires Inv(L, s) && Step(L, s, a, s') && a.InstallBlock?
    ensures forall b :: 0 <= b < |s.disk| && !L.Contains(b) ==> Latest(s', b) == Latest(s, b)
  {
    hide View;
    hide HomeOf;
    hide GetHeader;
    assert BufOk(L, s, s.lh[s.phase.i]);
    assert s.cache[s.lh[s.phase.i]].data == s.disk[SlotBlock(L, s.phase.i)];
    hide CacheOk;
  }

  lemma InstallBlockDisk(L: Layout, s: State, a: Action, s': State)
    requires Inv(L, s) && Step(L, s, a, s') && a.InstallBlock?
    ensures WfLog(s'.disk, L) && s'.disk[L.start] == s.disk[L.start] && Dur(L, s') == Dur(L, s)
    ensures Cur(L, s') == Cur(L, s)
  {
    hide View;
    hide HomeOf;
    hide GetHeader;
    hide CacheOk;
    BlockInstalled(L, s.disk, s.phase.i);
    InstallBlockLatest(L, s, a, s');
    hide Latest;
    SameCur(L, s, s');
  }

  lemma InstallBlockStep(L: Layout, s: State, a: Action, s': State)
    requires Inv(L, s) && Step(L, s, a, s') && a.InstallBlock?
    ensures Simulates(L, s, a, s')
  {
    hide View;
    hide GetHeader;
    hide Dur;
    hide Cur;
    hide BufOk;
    InstallBlockDisk(L, s, a, s');
    InstallBlockCache(L, s, s', s.phase.i, s.disk[SlotBlock(L, s.phase.i)]);
    InstallBlockPhase(L, s, s', s.phase.i);
  }

  lemma ClearHeadDisk(L: Layout, s: State, a: Action, s': State)
    requires Inv(L, s) && Step(L, s, a, s') && a.ClearHead?
    ensures WfLog(s'.disk, L) && Empty(s'.disk, L) && Dur(L, s') == Dur(L, s)
  {
    hide View;
    hide HomeOf;
    hide GetHeader;
    hide PutHeader;
    hide CacheOk;
    assert forall j :: 0 <= j < |s.lh| ==> s.disk[s.lh[j]] == s.disk[SlotBlock(L, j)];
    HeadCleared(L, s.disk);
  }

  lemma ClearHeadCache(L: Layout, s: State, a: Action, s': State)
    requires Inv(L, s) && Step(L, s, a, s') && a.ClearHead?
    ensures CacheOk(L, s')
    ensures forall b :: 0 <= b < |s.disk| && !L.Contains(b) ==> Latest(s', b) == Latest(s, b)
  {
    hide PutHeader;
    hide WfLog;
    assert L.Contains(L.start);
    forall b | b in s'.cache
      ensures BufOk(L, s', b)
    {
      assert BufOk(L, s, b);
    }
  }

  lemma ClearHeadStep(L: Layout, s: State, a: Action, s': State)
    requires Inv(L, s) && Step(L, s, a, s') && a.ClearHead?
    ensures Simulates(L, s, a, s')
  {
    hide View;
    hide HomeOf;
    hide GetHeader;
    ClearHeadDisk(L, s, a, s');
    ClearHeadCache(L, s, a, s');
    hide CacheOk;
    hide PutHeader;
    hide WfLog;
    SameCur(L, s, s');
    Unseen(L, s, a, s');
  }

  lemma CrashStep(L: Layout, s: State, a: Action, s': State)
    requires Inv(L, s) && Step(L, s, a, s') && (a.Crash? || a.ReadHead?)
    ensures Simulates(L, s, a, s')
  {
    hide View;
    hide HomeOf;
    hide PutHeader;
    SameDur(L, s, s');
    hide Dur;
  }

  lemma RecoverBlockDisk(L: Layout, s: State, a: Action, s': State)
    requires Inv(L, s) && Step(L, s, a, s') && a.RecoverBlock?
    ensures WfLog(s'.disk, L) && s'.disk[L.start] == s.disk[L.start] && Dur(L, s') == Dur(L, s)
    ensures forall j :: 0 <= j < |s.phase.slots| ==>
            SlotBlock(L, j) < |s.disk| && s'.disk[SlotBlock(L, j)] == s.disk[SlotBlock(L, j)]
  {
    hide View;
    hide HomeOf;
    hide GetHeader;
    hide CacheOk;
    hide WfSlots;
    BlockInstalled(L, s.disk, s.phase.i);
    SlotsKept(L, s.disk, s.phase.i);
  }

  lemma RecoverBlockInv(L: Layout, s: State, a: Action, s': State)
    requires Inv(L, s) && Step(L, s, a, s') && a.RecoverBlock?
    requires WfLog(s'.disk, L) && s'.disk[L.start] == s.disk[L.start]
    requires forall j :: 0 <= j < |s.phase.slots| ==>
               SlotBlock(L, j) < |s.disk| && s'.disk[SlotBlock(L, j)] == s.disk[SlotBlock(L, j)]
    ensures Inv(L, s')
  {
    hide View;
    hide HomeOf;
    hide GetHeader;
  }

  lemma RecoverBlockStep(L: Layout, s: State, a: Action, s': State)
    requires Inv(L, s) && Step(L, s, a, s') && a.RecoverBlock?
    ensures Simulates(L, s, a, s')
  {
    hide View;
    hide HomeOf;
    hide GetHeader;
    RecoverBlockDisk(L, s, a, s');
    RecoverBlockInv(L, s, a, s');
    hide Inv;
    hide WfLog;
    hide Dur;
    Unseen(L, s, a, s');
  }

  lemma NothingCached(L: Layout, s: State)
    requires WfLog(s.disk, L) && Empty(s.disk, L) && s.cache == map[] && s.lh == [] && s.ops == {} && s.phase == Idle
    ensures Inv(L, s) && Cur(L, s) == HomeOf(L, s.disk) && Logged(s) == {}
  {
    hide View;
  }

  lemma RecoverClearStep(L: Layout, s: State, a: Action, s': State)
    requires Inv(L, s) && Step(L, s, a, s') && a.RecoverClear?
    ensures Simulates(L, s, a, s')
  {
    hide View;
    hide HomeOf;
    hide GetHeader;
    hide PutHeader;
    assert forall j :: 0 <= j < |s.phase.slots| ==> s.disk[s.phase.slots[j]] == s.disk[SlotBlock(L, j)];
    HeadCleared(L, s.disk);
    hide WfLog;
    NothingCached(L, s');
    Unseen(L, s, a, s');
  }

  /** Every step of the system, in any interleaving, is a step of the flat store. */
  lemma StepRefines(L: Layout, s: State, a: Action, s': State)
    requires Inv(L, s) && Step(L, s, a, s')
    ensures Inv(L, s') && StoreStep(Abs(L, s), EventOf(s, a), Abs(L, s'))
  {
    hide CacheOk;
    hide PhaseOk;
    hide Step;
    hide StoreStep;
    hide Abs;
    match a
    case Modify(_, _, _) => ModifyStep(L, s, a, s');
    case LogWrite(_, _) => LogWriteStep(L, s, a, s');
    case WriteLogBlock => WriteLogBlockStep(L, s, a, s');
    case WriteHead => WriteHeadStep(L, s, a, s');
    case InstallBlock => InstallBlockStep(L, s, a, s');
    case ClearHead => ClearHeadStep(L, s, a, s');
    case Crash => CrashStep(L, s, a, s');
    case ReadHead => CrashStep(L, s, a, s');
    case RecoverBlock => RecoverBlockStep(L, s, a, s');
    case RecoverClear => RecoverClearStep(L, s, a, s');
    case BeginOp(_) => OpSteps(L, s, a, s');
    case EndOp(_) => OpSteps(L, s, a, s');
    case CommitNothing => OpSteps(L, s, a, s');
    case Miss(_, _) => MissStep(L, s, a, s');
    case Fill(_, _) => MissStep(L, s, a, s');
    case Evict(_) => EvictStep(L, s, a, s');
    case ReadBuf(_, _) => ReadStep(L, s, a, s');
    case _ => HitStep(L, s, a, s');
  }

  // ---------------------------------------------------------------- whole runs

  ghost predicate StepAt(L: Layout, ss: seq<State>, acts: seq<Action>, i: nat)
    requires i < |acts| && |ss| == |acts| + 1
  {
    Step(L, ss[i], acts[i], ss[i + 1])
  }

  ghost predicate IsRun(L: Layout, ss: seq<State>, acts: seq<Action>) {
    && |ss| == |acts| + 1 && Init(L, ss[0])
    && forall i :: 0 <= i < |acts| ==> StepAt(L, ss, acts, i)
  }

  lemma {:induction false} RunInv(L: Layout, ss: seq<State>, acts: seq<Action>, i: nat)
    requires IsRun(L, ss, acts) && i < |ss|
    ensures Inv(L, ss[i])
  {
    hide CacheOk;
    hide PhaseOk;
    hide Step;
    hide StoreStep;
    hide Dur;
    hide Cur;
    if i > 0 {
      RunInv(L, ss, acts, i - 1);
      assert StepAt(L, ss, acts, i - 1);
      StepRefines(L, ss[i - 1], acts[i - 1], ss[i]);
    } else {
      InitStart(L, ss[0]);
    }
  }

  lemma InitStart(L: Layout, s: State)
    requires Init(L, s)
    ensures Inv(L, s) && s.ops == {} && Dur(L, s) == Cur(L, s)
  {
  }

  /** Refinement: the events of any run are those of a run of the flat store.  In
      particular every read returns the latest contents (Get), a block that was changed and not
      logged may fall back to its durable contents (Forget), and a crash at any point, inside
      recovery too, falls back to exactly the durable contents (Lose). */
  lemma RunRefines(L: Layout, ss: seq<State>, acts: seq<Action>, i: nat)
    requires IsRun(L, ss, acts) && i < |acts|
    ensures Inv(L, ss[i]) && Inv(L, ss[i + 1])
    ensures StoreStep(Abs(L, ss[i]), EventOf(ss[i], acts[i]), Abs(L, ss[i + 1]))
  {
    hide CacheOk;
    hide PhaseOk;
    hide Step;
    hide StoreStep;
    hide Dur;
    hide Cur;
    RunInv(L, ss, acts, i);
    assert StepAt(L, ss, acts, i);
    StepRefines(L, ss[i], acts[i], ss[i + 1]);
  }

  lemma DurableMoves(L: Layout, s: State, a: Action, s': State)
    requires Inv(L, s) && Step(L, s, a, s')
    ensures Inv(L, s')
    ensures Dur(L, s') == Dur(L, s) || (s.ops == {} && Dur(L, s') == Saved(Abs(L, s)))
  {
    hide CacheOk;
    hide PhaseOk;
    hide Step;
    hide Dur;
    hide Cur;
    hide EventOf;
    hide Saved;
    hide Logged;
    StepRefines(L, s, a, s');
  }

  /** Where nothing is logged, what a commit would make durable is durable already. */
  lemma NothingToSave(L: Layout, s: State)
    requires Inv(L, s) && Logged(s) == {}
    ensures Saved(Abs(L, s)) == Dur(L, s)
  {
    hide View;
    hide CacheOk;
    hide PhaseOk;
    hide Latest;
  }

  // ---------------------------------------------------------------- references and changes

  /** Thread t gives up its reference to block b, or everybody does. */
  predicate Drops(a: Action, t: nat, b: nat) { a == Release(t, b) || a.Crash? }

  lemma RefStep(L: Layout, s: State, a: Action, s': State, t: nat, b: nat)
    requires Step(L, s, a, s') && b in s.cache && t in s.cache[b].refs && !Drops(a, t, b)
    ensures b in s'.cache && t in s'.cache[b].refs
  {
    hide PutHeader;
    hide GetHeader;
  }

  lemma RefStarts(L: Layout, s: State, a: Action, s': State)
    requires Step(L, s, a, s') && (a.Hit? || a.Miss?)
    ensures a.b in s'.cache && a.t in s'.cache[a.b].refs
  {
  }

  /** A block that a thread has asked for stays in the cache, with the thread's reference, until the
      thread gives it back. */
  lemma {:induction false} StaysCached(L: Layout, ss: seq<State>, acts: seq<Action>, j: nat, i: nat)
    requires IsRun(L, ss, acts) && j < i < |ss| && (acts[j].Hit? || acts[j].Miss?)
    requires forall k :: j < k < i ==> !Drops(acts[k], acts[j].t, acts[j].b)
    ensures acts[j].b in ss[i].cache && acts[j].t in ss[i].cache[acts[j].b].refs
    decreases i
  {
    hide Step;
    hide Init;
    assert StepAt(L, ss, acts, i - 1);
    if i == j + 1 {
      RefStarts(L, ss[j], acts[j], ss[i]);
    } else {
      StaysCached(L, ss, acts, j, i - 1);
      RefStep(L, ss[i - 1], acts[i - 1], ss[i], acts[j].t, acts[j].b);
    }
  }

  /** The step of commit() writes block b home. */
  ghost predicate Installs(s: State, a: Action, b: nat) {
    a.InstallBlock? && s.phase.Install? && s.phase.i < |s.lh| && s.lh[s.phase.i] == b
  }

  /** After the first i steps block b is cached with a change that is neither logged nor written. */
  ghost predicate Changed(ss: seq<State>, acts: seq<Action>, i: nat, b: nat)
    requires i <= |acts| <= |ss|
  {
    i > 0 &&
    match acts[i - 1]
    case Modify(_, c, _) => c == b || Changed(ss, acts, i - 1, b)
    case LogWrite(_, c) => c != b && Changed(ss, acts, i - 1, b)
    case Evict(c) => c != b && Changed(ss, acts, i - 1, b)
    case Miss(_, c) => c != b && Changed(ss, acts, i - 1, b)
    case Crash => false
    case InstallBlock => !Installs(ss[i - 1], acts[i - 1], b) && Changed(ss, acts, i - 1, b)
    case _ => Changed(ss, acts, i - 1, b)
  }

  ghost predicate IsDirty(s: State, b: nat) { b in s.cache && s.cache[b].dirty }

  lemma DirtyStep(L: Layout, s: State, a: Action, s': State, b: nat)
    requires Step(L, s, a, s')
    ensures IsDirty(s', b) <==>
            match a
            case Modify(_, c, _) => c == b || IsDirty(s, b)
            case LogWrite(_, c) => c != b && IsDirty(s, b)
            case Evict(c) => c != b && IsDirty(s, b)
            case Miss(_, c) => c != b && IsDirty(s, b)
            case Crash => false
            case InstallBlock => !Installs(s, a, b) && IsDirty(s, b)
            case _ => IsDirty(s, b)
  {
    hide PutHeader;
    hide GetHeader;
  }

  /** dirty means what it says: the block was changed after it was last logged or written home. */
  lemma {:induction false} DirtyMeans(L: Layout, ss: seq<State>, acts: seq<Action>, i: nat, b: nat)
    requires IsRun(L, ss, acts) && i < |ss|
    ensures IsDirty(ss[i], b) <==> Changed(ss, acts, i, b)
  {
    if i > 0 {
      hide Step;
      DirtyMeans(L, ss, acts, i - 1, b);
      assert StepAt(L, ss, acts, i - 1);
      DirtyStep(L, ss[i - 1], acts[i - 1], ss[i], b);
    }
  }

  lemma OpsStep(L: Layout, s: State, a: Action, s': State)
    requires Step(L, s, a, s') && |s.ops| * MAXOPBLOCKS <= LOGSIZE
    ensures |s'.ops| * MAXOPBLOCKS <= LOGSIZE
  {
    hide PutHeader;
    hide GetHeader;
  }

  /** begin_op() lets no more operations run at a time than the log has room for. */
  lemma {:induction false} OpsBounded(L: Layout, ss: seq<State>, acts: seq<Action>, i: nat)
    requires IsRun(L, ss, acts) && i < |ss|
    ensures |ss[i].ops| * MAXOPBLOCKS <= LOGSIZE
  {
    if i > 0 {
      hide Step;
      OpsBounded(L, ss, acts, i - 1);
      assert StepAt(L, ss, acts, i - 1);
      OpsStep(L, ss[i - 1], acts[i - 1], ss[i]);
    }
  }

  // ---------------------------------------------------------------- quiet moments

  /** No operation is running, and no commit() of one still has its header write to do. */
  ghost predicate Quiet(s: State) {
    s.ops == {} && (s.phase.WriteLog? ==> s.lh == [])
  }

  ghost predicate IdleOk(s: State) {
    s.phase.Idle? && s.ops == {} ==> s.lh == []
  }

  lemma IdleStep(L: Layout, s: State, a: Action, s': State)
    requires Inv(L, s) && Step(L, s, a, s') && IdleOk(s)
    ensures IdleOk(s')
  {
    hide CacheOk;
    hide WfLog;
    hide WfSlots;
    hide PutHeader;
    hide GetHeader;
    hide Refresh;
    if a.EndOp? && s'.ops == {} {
      assert s.ops == {a.t} by {
        assert forall t :: t in s.ops && t != a.t ==> t in s.ops - {a.t};
      }
    }
  }

  /** end_op() commits: in every run, whenever no operation is running and commit() is not at
      work, nothing is left in the log. */
  lemma {:induction false} IdleEmpty(L: Layout, ss: seq<State>, acts: seq<Action>, i: nat)
    requires IsRun(L, ss, acts) && i < |ss|
    ensures ss[i].phase.Idle? && ss[i].ops == {} ==> ss[i].lh == []
  {
    hide Inv;
    hide Step;
    if i > 0 {
      IdleEmpty(L, ss, acts, i - 1);
      RunInv(L, ss, acts, i - 1);
      assert StepAt(L, ss, acts, i - 1);
      IdleStep(L, ss[i - 1], acts[i - 1], ss[i]);
    }
  }

  lemma QuietEmpty(L: Layout, ss: seq<State>, acts: seq<Action>, i: nat)
    requires IsRun(L, ss, acts) && i < |ss| && Quiet(ss[i])
    ensures Logged(ss[i]) == {}
  {
    hide IsRun;
    IdleEmpty(L, ss, acts, i);
  }

  /** Atomicity and durability of system calls.  What a crash would leave at moment k is what was
      logged at some moment j at which no operation was running, so that an operation's updates
      are either all there or all missing; and if at moment i no operation is running and no
      commit() is before its header write, j is not before i. */
  lemma {:induction false} DurableIsQuiescent(L: Layout, ss: seq<State>, acts: seq<Action>, i: nat, k: nat)
    returns (j: nat)
    requires IsRun(L, ss, acts) && i <= k < |ss| && Quiet(ss[i])
    ensures i <= j <= k && Inv(L, ss[k]) && Inv(L, ss[j])
    ensures ss[j].ops == {} && Dur(L, ss[k]) == Saved(Abs(L, ss[j]))
    decreases k
  {
    hide CacheOk;
    hide PhaseOk;
    hide Step;
    hide StoreStep;
    hide Dur;
    hide Cur;
    hide Saved;
    hide Logged;
    RunInv(L, ss, acts, k);
    if i == k {
      QuietEmpty(L, ss, acts, i);
      NothingToSave(L, ss[i]);
      return i;
    }
    RunInv(L, ss, acts, k - 1);
    assert StepAt(L, ss, acts, k - 1);
    DurableMoves(L, ss[k - 1], acts[k - 1], ss[k]);
    if ss[k - 1].ops == {} && Dur(L, ss[k]) == Saved(Abs(L, ss[k - 1])) {
      return k - 1;
    }
    j := DurableIsQuiescent(L, ss, acts, i, k - 1);
  }

  // ---------------------------------------------------------------- callers that do not log

  /** A run without a crash that ends in state s after n steps. */
  ghost predicate LeadsTo(L: Layout, ss: seq<State>, acts: seq<Action>, n: nat, s: State) {
    && IsRun(L, ss, acts) && |acts| == n && ss[n] == s
    && forall i :: 0 <= i < |acts| ==> !acts[i].Crash?
  }

  lemma Extend(L: Layout, ss: seq<State>, acts: seq<Action>, n: nat, s: State, a: Action, s': State)
    returns (ts: seq<State>, bs: seq<Action>)
    requires LeadsTo(L, ss, acts, n, s) && Step(L, s, a, s') && !a.Crash?
    ensures ts == ss + [s'] && LeadsTo(L, ts, bs, n + 1, s')
  {
    hide Step;
    hide Init;
    ts, bs := ss + [s'], acts + [a];
    forall i | 0 <= i < |bs|
      ensures StepAt(L, ts, bs, i)
    {
      if i < |acts| {
        assert StepAt(L, ss, acts, i);
      }
    }
  }

  /** A run from boot to where thread 0 has begun an operation. */
  lemma BootToOp(L: Layout, disk: Disk, s: State) returns (ss: seq<State>, acts: seq<Action>)
    requires WfLog(disk, L) && Empty(disk, L)
    requires s == State(disk[L.start := PutHeader(disk[L.start], [])], map[], [], {0}, Idle)
    ensures LeadsTo(L, ss, acts, 3, s)
  {
    hide LeadsTo;
    hide WfLog;
    hide GetHeader;
    hide PutHeader;
    HeadFacts(L, disk);
    var s0 := State(disk, map[], [], {}, Boot);
    StartRun(L, s0);
    var s1 := s0.(phase := Recover([], 0));
    ss, acts := Extend(L, [s0], [], 0, s0, ReadHead, s1);
    var s2 := s.(ops := {});
    ss, acts := Extend(L, ss, acts, 1, s1, RecoverClear, s2);
    assert {} + {0} == {0};
    ss, acts := Extend(L, ss, acts, 2, s2, BeginOp(0), s);
  }

  /** ... and then holds block b. */
  lemma OpToHeld(L: Layout, ss0: seq<State>, acts0: seq<Action>, s: State, b: nat, s': State)
    returns (ss: seq<State>, acts: seq<Action>)
    requires LeadsTo(L, ss0, acts0, 3, s) && s.phase == Idle && s.cache == map[] && b < |s.disk|
    requires s' == s.(cache := map[b := Buf(s.disk[b], true, Some(0), {0}, false, false)])
    ensures LeadsTo(L, ss, acts, 6, s')
  {
    hide LeadsTo;
    hide PutHeader;
    hide GetHeader;
    var s1 := SetBuf(s, b, Buf(ZeroBlock(), false, None, {0}, false, false));
    ss, acts := Extend(L, ss0, acts0, 3, s, Miss(0, b), s1);
    var s2 := SetBuf(s1, b, s1.cache[b].(holder := Some(0)));
    ss, acts := Extend(L, ss, acts, 4, s1, Lock(0, b), s2);
    assert s' == SetBuf(s2, b, s2.cache[b].(data := s.disk[b], valid := true));
    ss, acts := Extend(L, ss, acts, 5, s2, Fill(0, b), s');
  }

  lemma HeadFacts(L: Layout, disk: Disk)
    requires WfLog(disk, L) && Empty(disk, L)
    ensures L.start < |disk| && L.Contains(L.start) && GetWord(disk[L.start], 0) < WORDS
    ensures GetHeader(disk[L.start]) == []
  {
  }

  lemma StartRun(L: Layout, s: State)
    requires Init(L, s)
    ensures LeadsTo(L, [s], [], 0, s)
  {
  }

  /** ... changes it and releases it without log_write(), and it is recycled. */
  lemma HeldToLost(L: Layout, ss0: seq<State>, acts0: seq<Action>, s: State, b: nat, v: Block)
    returns (ss: seq<State>, acts: seq<Action>)
    requires LeadsTo(L, ss0, acts0, 6, s) && s.phase == Idle && 0 in s.ops && IsHome(L, s, b)
    requires s.cache == map[b := Buf(s.disk[b], true, Some(0), {0}, false, false)]
    ensures LeadsTo(L, ss, acts, 9, s.(cache := map[])) && |ss| == 10
    ensures ss[8] == s.(cache := map[b := Buf(v, true, None, {}, false, true)])
  {
    hide LeadsTo;
    hide PutHeader;
    hide GetHeader;
    var s1 := SetBuf(s, b, s.cache[b].(data := v, dirty := true));
    ss, acts := Extend(L, ss0, acts0, 6, s, Modify(0, b, v), s1);
    var s2 := s.(cache := map[b := Buf(v, true, None, {}, false, true)]);
    ghost var none: set<nat> := {0};
    assert none - {0} == {};
    assert s2.cache == s1.cache[b := s1.cache[b].(holder := None, refs := none - {0})];
    ss, acts := Extend(L, ss, acts, 7, s1, Release(0, b), s2);
    RunLength(L, ss, acts, 8, s2);
    var s3 := s.(cache := map[]);
    assert s3 == s2.(cache := s2.cache - {b});
    ss, acts := Extend(L, ss, acts, 8, s2, Evict(b), s3);
  }

  lemma RunLength(L: Layout, ss: seq<State>, acts: seq<Action>, n: nat, s: State)
    requires LeadsTo(L, ss, acts, n, s)
    ensures |ss| == n + 1 && ss[n] == s && |acts| == n && IsRun(L, ss, acts)
  {
  }

  /** The promise that what a reader has seen stays, short of a crash, is false: a run from boot in
      which block b is changed, released without log_write(), readable by everyone with its new
      contents, recycled, and then back to what it was. */
  lemma SeenThenLost(L: Layout, disk: Disk, b: nat, v: Block) returns (ss: seq<State>, acts: seq<Action>)
    requires WfLog(disk, L) && Empty(disk, L) && b < |disk| && !L.Contains(b)
    ensures |ss| == 10 && LeadsTo(L, ss, acts, 9, ss[9]) && Inv(L, ss[8]) && Inv(L, ss[9])
    ensures b in Cur(L, ss[8]) && Cur(L, ss[8])[b] == v && b in Cur(L, ss[9]) && Cur(L, ss[9])[b] == disk[b]
  {
    hide PutHeader;
    hide View;
    hide LeadsTo;
    hide IsRun;
    hide Inv;
    HeadFacts(L, disk);
    var s3 := State(disk[L.start := PutHeader(disk[L.start], [])], map[], [], {0}, Idle);
    var s6 := s3.(cache := map[b := Buf(disk[b], true, Some(0), {0}, false, false)]);
    ss, acts := BootToOp(L, disk, s3);
    hide WfLog;
    ss, acts := OpToHeld(L, ss, acts, s3, b, s6);
    ss, acts := HeldToLost(L, ss, acts, s6, b, v);
    RunLength(L, ss, acts, 9, s6.(cache := map[]));
    RunInv(L, ss, acts, 8);
    RunInv(L, ss, acts, 9);
    InvLog(L, ss[8]);
    InvLog(L, ss[9]);
  }

  lemma InvLog(L: Layout, s: State)
    requires Inv(L, s)
    ensures WfLog(s.disk, L)
  {
  }

  // ---------------------------------------------------------------- callers that log what they change

  /** The caller of brelse() or end_op() has logged what it changed. */
  ghost predicate Tidy(s: State, a: Action) {
    match a
    case Release(t, b) => b in s.cache ==> !s.cache[b].dirty
    case EndOp(t) => forall b :: b in s.cache && s.cache[b].dirty ==> s.cache[b].holder != Some(t)
    case _ => true
  }

  /** Only the holder of a buffer, inside an operation, has changes in it that are not logged. */
  ghost predicate Clean(s: State) {
    forall b :: b in s.cache && s.cache[b].dirty ==> s.cache[b].holder.Some? && s.cache[b].holder.value in s.ops
  }

  lemma CleanStep(L: Layout, s: State, a: Action, s': State)
    requires Step(L, s, a, s') && Tidy(s, a) && Clean(s)
    ensures Clean(s')
  {
    hide PutHeader;
    hide GetHeader;
    forall b | b in s'.cache && s'.cache[b].dirty
      ensures s'.cache[b].holder.Some? && s'.cache[b].holder.value in s'.ops
    {
      assert b in s.cache;
    }
  }

  /** In a clean state with no operation running the current contents are what a commit would
      make durable. */
  lemma CleanSaved(L: Layout, s: State)
    requires Inv(L, s) && Clean(s) && s.ops == {}
    ensures Saved(Abs(L, s)) == Cur(L, s)
  {
    if Up(s) {
      forall b | b in Cur(L, s) && b in Dur(L, s) && b !in Logged(s)
        ensures Dur(L, s)[b] == Cur(L, s)[b]
      {
        CleanBlock(L, s, b);
      }
    }
    hide Inv;
    hide Latest;
  }

  lemma CleanBlock(L: Layout, s: State, b: nat)
    requires Inv(L, s) && Up(s) && b < |s.disk| && !L.Contains(b)
    requires b in s.cache && s.cache[b].dirty ==> s.cache[b].pinned
    requires b !in Logged(s)
    ensures b in Dur(L, s) && Dur(L, s)[b] == Latest(s, b)
  {
    hide View;
    if b in s.cache {
      assert BufOk(L, s, b);
    }
    if b in s.cache && s.cache[b].pinned {
      PinnedDurable(L, s, b);
    } else {
      UnpinnedDurable(L, s, b);
    }
  }

  /** After the header write a pinned buffer holds what is durable. */
  lemma PinnedDurable(L: Layout, s: State, b: nat)
    requires Inv(L, s) && Up(s) && b < |s.disk| && !L.Contains(b) && b in s.cache && s.cache[b].pinned
    requires b !in Logged(s)
    ensures b in Dur(L, s) && Dur(L, s)[b] == s.cache[b].data
  {
    hide GetHeader;
    hide View;
    hide WfSlots;
    var j := PinnedSlot(L, s, b);
    hide CacheOk;
    SlotDurable(L, s.disk, j);
  }

  lemma PinnedSlot(L: Layout, s: State, b: nat) returns (j: nat)
    requires CacheOk(L, s) && Up(s) && b in s.cache && s.cache[b].pinned && b !in Logged(s)
    ensures s.phase.Install? && s.phase.i <= j < |s.lh| && s.lh[j] == b
  {
    assert BufOk(L, s, b);
    j :| From(s) <= j < |s.lh| && s.lh[j] == b;
  }

  /** What the log holds for a slot is durable. */
  lemma SlotDurable(L: Layout, d: Disk, j: nat)
    requires WfLog(d, L) && j < |GetHeader(d[L.start])| && !L.Contains(GetHeader(d[L.start])[j])
    ensures var b := GetHeader(d[L.start])[j];
            b in HomeOf(L, View(d, L)) && HomeOf(L, View(d, L))[b] == d[SlotBlock(L, j)]
  {
    hide GetHeader;
    OverlayAt(d, GetHeader(d[L.start]), LoggedData(d, L), j);
  }

  /** Every caller so far has logged what it changed. */
  ghost predicate TidyRun(ss: seq<State>, acts: seq<Action>, n: nat)
    requires |ss| == |acts| + 1 && n <= |acts|
  {
    forall i :: 0 <= i < n ==> Tidy(ss[i], acts[i])
  }

  lemma {:induction false} CleanRun(L: Layout, ss: seq<State>, acts: seq<Action>, n: nat)
    requires IsRun(L, ss, acts) && n <= |acts| && TidyRun(ss, acts, n)
    ensures Clean(ss[n])
  {
    hide Step;
    hide Clean;
    hide Tidy;
    if n == 0 {
      NoneDirty(ss[0]);
    } else {
      CleanRun(L, ss, acts, n - 1);
      assert StepAt(L, ss, acts, n - 1);
      CleanStep(L, ss[n - 1], acts[n - 1], ss[n]);
    }
  }

  lemma NoneDirty(s: State)
    requires s.cache == map[]
    ensures Clean(s)
  {
  }

  /** As long as callers log what they change, no block ever falls back while the system is up,
      and the header write makes the current contents durable, all of them. */
  lemma TidyRefines(L: Layout, ss: seq<State>, acts: seq<Action>, i: nat)
    requires IsRun(L, ss, acts) && i < |acts| && TidyRun(ss, acts, i)
    ensures Inv(L, ss[i]) && Inv(L, ss[i + 1])
    ensures acts[i].Evict? ==> Abs(L, ss[i + 1]) == Abs(L, ss[i])
    ensures acts[i].WriteHead? ==> Dur(L, ss[i + 1]) == Cur(L, ss[i])
  {
    hide CacheOk;
    hide PhaseOk;
    hide Dur;
    hide Cur;
    hide View;
    hide PutHeader;
    hide GetHeader;
    hide Saved;
    RunRefines(L, ss, acts, i);
    CleanRun(L, ss, acts, i);
    assert StepAt(L, ss, acts, i);
    if acts[i].Evict? {
      EvictStep(L, ss[i], acts[i], ss[i + 1]);
      EvictedClean(L, ss[i], acts[i].b);
      SameDur(L, ss[i], ss[i + 1]);
    } else if acts[i].WriteHead? {
      CleanSaved(L, ss[i]);
    }
  }

  lemma EvictedClean(L: Layout, s: State, b: nat)
    requires Inv(L, s) && Clean(s) && b in s.cache && s.cache[b].refs == {}
    ensures !s.cache[b].dirty
  {
    assert BufOk(L, s, b);
  }

  /** Then what a crash would leave is the contents, as readers saw them, of a moment at which no
      operation was running, and that moment is not before the last one at which no operation was
      running and commit() had written its header. */
  lemma TidyDurable(L: Layout, ss: seq<State>, acts: seq<Action>, i: nat, k: nat) returns (j: nat)
    requires IsRun(L, ss, acts) && i <= k < |ss| && Quiet(ss[i]) && TidyRun(ss, acts, k)
    ensures i <= j <= k && Inv(L, ss[k]) && Inv(L, ss[j])
    ensures ss[j].ops == {} && Dur(L, ss[k]) == Cur(L, ss[j])
  {
    hide CacheOk;
    hide PhaseOk;
    hide Step;
    hide Dur;
    hide Cur;
    hide Saved;
    hide Logged;
    j := DurableIsQuiescent(L, ss, acts, i, k);
    CleanRun(L, ss, acts, j);
    CleanSaved(L, ss[j]);
  }

  /** In particular all that readers see is durable whenever no operation is running and end_op()
      has returned. */
  lemma TidySettled(L: Layout, ss: seq<State>, acts: seq<Action>, i: nat)
    requires IsRun(L, ss, acts) && i < |ss| && Quiet(ss[i]) && TidyRun(ss, acts, i)
    ensures Inv(L, ss[i]) && Dur(L, ss[i]) == Cur(L, ss[i])
  {
    hide CacheOk;
    hide PhaseOk;
    hide Step;
    hide Dur;
    hide Cur;
    hide Saved;
    hide Logged;
    RunInv(L, ss, acts, i);
    CleanRun(L, ss, acts, i);
    CleanSaved(L, ss[i]);
    QuietEmpty(L, ss, acts, i);
    NothingToSave(L, ss[i]);
  }

  // ---------------------------------------------------------------- commit() and recovery finish

  /** The steps of commit() and of initlog(). */
  predicate OwnStep(a: Action) {
    || a.CommitNothing? || a.WriteLogBlock? || a.WriteHead? || a.InstallBlock? || a.ClearHead?
    || a.ReadHead? || a.RecoverBlock? || a.RecoverClear?
  }

  /** How many of them are ahead. */
  ghost function Ahead(L: Layout, s: State): nat
    requires Inv(L, s)
  {
    match s.phase
    case Idle => 0
    case WriteLog(i) => 2 * |s.lh| + 2 - i
    case Install(i) => |s.lh| + 1 - i
    case Boot => |GetHeader(s.disk[L.start])| + 2
    case Recover(slots, i) => |slots| + 1 - i
  }

  ghost predicate NoneLocked(s: State) {
    forall b :: b in s.cache ==> s.cache[b].holder == None
  }

  lemma NextLog(L: Layout, s: State) returns (a: Action, s': State)
    requires Inv(L, s) && s.phase.WriteLog? && NoneLocked(s)
    ensures OwnStep(a) && Step(L, s, a, s') && NoneLocked(s')
    ensures s'.phase == if a.WriteLogBlock? then WriteLog(s.phase.i + 1) else if a.WriteHead? then Install(0) else Idle
    ensures s'.lh == s.lh && (a.WriteLogBlock? ==> s.phase.i < |s.lh|) && (s'.phase.Idle? ==> s.lh == [])
  {
    hide PutHeader;
    hide GetHeader;
    hide View;
    hide BufOk;
    var d, i := s.disk, s.phase.i;
    if s.lh == [] {
      a, s' := CommitNothing, s.(phase := Idle);
    } else if i < |s.lh| {
      var to, v := L.start + 1 + i, s.cache[s.lh[i]].data;
      a, s' := WriteLogBlock, s.(disk := d[to := v], cache := Refresh(s.cache, to, v), phase := WriteLog(i + 1));
    } else {
      var h := PutHeader(d[L.start], s.lh);
      a, s' := WriteHead, s.(disk := d[L.start := h], cache := Refresh(s.cache, L.start, h), phase := Install(0));
    }
  }

  lemma NextInstall(L: Layout, s: State) returns (a: Action, s': State)
    requires Inv(L, s) && s.phase.Install? && NoneLocked(s)
    ensures OwnStep(a) && !a.WriteHead? && Step(L, s, a, s') && NoneLocked(s')
    ensures if s.phase.i < |s.lh| then s'.phase == Install(s.phase.i + 1) && s'.lh == s.lh
            else s'.phase == Idle && s'.lh == []
  {
    hide PutHeader;
    hide GetHeader;
    hide View;
    hide BufOk;
    var d, i := s.disk, s.phase.i;
    if i < |s.lh| {
      var to, v := s.lh[i], d[L.start + 1 + i];
      a, s' := InstallBlock, SetBuf(s, to, s.cache[to].(data := v, pinned := false, dirty := false)).(
        disk := d[to := v], phase := Install(i + 1));
    } else {
      var h := PutHeader(d[L.start], []);
      a, s' := ClearHead, s.(disk := d[L.start := h], cache := Refresh(s.cache, L.start, h), lh := [], phase := Idle);
    }
  }

  lemma NextRecover(L: Layout, s: State) returns (a: Action, s': State)
    requires Inv(L, s) && (s.phase.Boot? || s.phase.Recover?)
    ensures OwnStep(a) && !a.WriteHead? && Step(L, s, a, s') && NoneLocked(s') && s'.lh == []
    ensures s'.phase == if s.phase.Boot? then Recover(GetHeader(s.disk[L.start]), 0)
                        else if s.phase.i < |s.phase.slots| then Recover(s.phase.slots, s.phase.i + 1) else Idle
  {
    hide PutHeader;
    hide GetHeader;
    hide View;
    var d := s.disk;
    if s.phase.Boot? {
      a, s' := ReadHead, s.(phase := Recover(GetHeader(d[L.start]), 0));
    } else if s.phase.i < |s.phase.slots| {
      var i, slots := s.phase.i, s.phase.slots;
      a, s' := RecoverBlock, s.(disk := d[slots[i] := d[L.start + 1 + i]], phase := Recover(slots, i + 1));
    } else {
      a, s' := RecoverClear, s.(disk := d[L.start := PutHeader(d[L.start], [])], phase := Idle);
    }
  }

  /** While commit() or recovery is at work and nobody has a buffer locked, its next step is
      possible, and one less is then ahead. */
  lemma NextStep(L: Layout, s: State) returns (a: Action, s': State)
    requires Inv(L, s) && !s.phase.Idle? && NoneLocked(s)
    ensures OwnStep(a) && Step(L, s, a, s') && NoneLocked(s') && Inv(L, s') && Ahead(L, s') < Ahead(L, s)
    ensures s'.phase.Idle? ==> s'.lh == []
    ensures s.phase.WriteLog? ==> (a.WriteHead? <==> s'.phase.Install?) && (s'.phase.Idle? ==> s.lh == [])
    ensures s.phase.WriteLog? ==> s'.phase.WriteLog? || s'.phase.Install? || s'.phase.Idle?
    ensures !s.phase.WriteLog? ==> !a.WriteHead? && !s'.phase.WriteLog?
  {
    hide Step;
    hide CacheOk;
    hide GetHeader;
    hide NoneLocked;
    hide StoreStep;
    match s.phase {
      case WriteLog(_) => a, s' := NextLog(L, s);
      case Install(_) => a, s' := NextInstall(L, s);
      case _ => a, s' := NextRecover(L, s);
    }
    StepRefines(L, s, a, s');
  }

  /** What a run of the log's own steps will leave durable. */
  ghost function Outcome(L: Layout, s: State): map<nat, Block>
    requires Inv(L, s)
  {
    if s.phase.WriteLog? then Saved(Abs(L, s)) else Dur(L, s)
  }

  lemma OutcomeKept(L: Layout, s: State, a: Action, s': State)
    requires Inv(L, s) && Step(L, s, a, s') && Inv(L, s') && OwnStep(a)
    requires s.phase.WriteLog? ==> (a.WriteHead? <==> s'.phase.Install?) && (s'.phase.Idle? ==> s.lh == [])
    requires s.phase.WriteLog? ==> s'.phase.WriteLog? || s'.phase.Install? || s'.phase.Idle?
    requires !s.phase.WriteLog? ==> !a.WriteHead? && !s'.phase.WriteLog?
    ensures Outcome(L, s') == Outcome(L, s) && Cur(L, s') == Cur(L, s)
  {
    hide CacheOk;
    hide PhaseOk;
    hide Step;
    hide Dur;
    hide Cur;
    hide Saved;
    StepRefines(L, s, a, s');
    if s.phase.WriteLog? && s'.phase.Idle? {
      NothingToSave(L, s);
    }
  }

  /** A stretch of a run, from any state. */
  ghost predicate Steps(L: Layout, ss: seq<State>, acts: seq<Action>) {
    && |ss| == |acts| + 1
    && forall i :: 0 <= i < |acts| ==> StepAt(L, ss, acts, i) && OwnStep(acts[i])
  }

  /** commit() and recovery can finish on their own from wherever they are, unless somebody keeps
      a buffer locked.  They end with nothing in the log; the header write of commit(), if still
      ahead, has made the logged blocks durable; and readers notice nothing. */
  lemma {:induction false} Finishes(L: Layout, s: State) returns (ss: seq<State>, acts: seq<Action>)
    requires Inv(L, s) && NoneLocked(s) && !s.phase.Idle?
    ensures Steps(L, ss, acts) && ss[0] == s
    ensures var e := ss[|acts|];
            && Inv(L, e) && e.phase.Idle? && e.lh == []
            && Dur(L, e) == Outcome(L, s) && Cur(L, e) == Cur(L, s)
    decreases Ahead(L, s)
  {
    hide Inv;
    hide Step;
    hide NoneLocked;
    hide Dur;
    hide Cur;
    hide Saved;
    var a, s' := NextStep(L, s);
    OutcomeKept(L, s, a, s');
    if s'.phase.Idle? {
      ss, acts := [s, s'], [a];
    } else {
      var ts, bs := Finishes(L, s');
      ss, acts := [s] + ts, [a] + bs;
      forall i | 0 <= i < |acts|
        ensures StepAt(L, ss, acts, i) && OwnStep(acts[i])
      {
        if i > 0 {
          assert StepAt(L, ts, bs, i - 1);
        }
      }
    }
  }
}
