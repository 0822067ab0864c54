/** The descriptor table and the two rings that kernel/virtio_disk.c shares with the disk
    device (sections 2.6 and 5.2 of the Virtio 1.1 standard), as a step system: what the driver
    does under vdisk_lock and the device's own steps, in any order.  The device takes no lock,
    so a submission is three steps: the chain, its ring entry, and then the ring index. */
module Virtio {
  import opened Options
  import Counting

  const NUM := 8
  const WRAP := 0x1_0000 // the ring indices are 16-bit counters

  datatype Addr = Null | Op(i: nat) | Data(b: nat) | Status(i: nat)

  /** addr, the two flag bits VRING_DESC_F_NEXT and VRING_DESC_F_WRITE, and next. */
  datatype Desc = Desc(addr: Addr, chained: bool, deviceWrites: bool, next: nat)

  const CLEAR := Desc(Null, false, false, 0)

  /** The type and sector of a request header. */
  datatype Header = Header(write: bool, sector: nat)

  /** The chain is filled in, its head is in the ring, the index covers it, the device has taken
      it, has put it in the used ring, the interrupt handler has seen it. */
  datatype Phase = Filled | Entered | Posted(n: nat) | Taken | Used(k: nat) | Signalled

  /** A virtio_disk_rw() that has its three descriptors, the first of which is its key in flight:
      the other two, its buffer, what it asks for, its number, and how far the request is. */
  datatype Req = Req(d1: nat, d2: nat, b: nat, header: Header, id: nat, phase: Phase)

  datatype State = State(
    free: seq<bool>, desc: seq<Desc>, ops: seq<Header>, info: seq<Option<nat>>, status: seq<nat>,
    avail: seq<nat>, availIdx: nat, devIdx: nat,   // devIdx: how far the device has read avail
    used: seq<nat>, usedIdx: nat, seenIdx: nat,    // seenIdx: disk.used_idx
    busy: set<nat>,                                // buffers with b->disk == 1
    bufs: map<nat, int>, disk: map<nat, int>,      // contents of buffers and sectors
    flight: map<nat, Req>, own: seq<Option<nat>>,  // requests by chain head; the chain of a descriptor
    posted: nat, fetched: nat, finished: nat, seen: nat, // the rings' counters without wrap-around
    completed: set<nat>,                           // numbers of the requests the device has completed
    driver: Option<nat>)                           // the chain that is being submitted under vdisk_lock

  // ---------------------------------------------------------------- descriptors

  /** alloc_desc(): the first free descriptor from i on. */
  function FirstFree(free: seq<bool>, i: nat): (r: Option<nat>)
    ensures r.Some? ==> i <= r.value < |free| && free[r.value] && forall j :: i <= j < r.value ==> !free[j]
    ensures r == None ==> forall j :: i <= j < |free| ==> !free[j]
    decreases |free| - i
  {
    if i >= |free| then None else if free[i] then Some(i) else FirstFree(free, i + 1)
  }

  datatype Triple = Triple(a: nat, b: nat, c: nat)

  /** alloc3_desc(): the first three free descriptors, or none at all. */
  function Alloc3(free: seq<bool>): (r: Option<Triple>)
    ensures r.Some? ==> r.value.a < r.value.b < r.value.c < |free|
                        && free[r.value.a] && free[r.value.b] && free[r.value.c]
  {
    match FirstFree(free, 0)
    case None => None
    case Some(a) =>
      match FirstFree(free, a + 1)
      case None => None
      case Some(b) =>
        match FirstFree(free, b + 1)
        case None => None
        case Some(c) => Some(Triple(a, b, c))
  }

  function Mark(free: seq<bool>, t: Triple, x: bool): (r: seq<bool>)
    requires t.a < |free| && t.b < |free| && t.c < |free|
    ensures |r| == |free|
  {
    free[t.a := x][t.b := x][t.c := x]
  }

  /** The three descriptors of a request, as virtio_disk_rw() fills them in. */
  function Chain(desc: seq<Desc>, t: Triple, b: nat, write: bool): (r: seq<Desc>)
    requires t.a < |desc| && t.b < |desc| && t.c < |desc|
    ensures |r| == |desc|
  {
    desc[t.a := Desc(Op(t.a), true, false, t.b)]
        [t.b := Desc(Data(b), true, !write, t.c)]
        [t.c := Desc(Status(t.a), false, true, 0)]
  }

  // ---------------------------------------------------------------- steps

  datatype Action =
    | Fill(b: nat, header: Header) // virtio_disk_rw() has filled in a new chain
    | Enter                        // ... puts the head in the avail ring
    | Publish                      // ... increments the index of the avail ring, and sleeps
    | Fetch                        // the device takes the next chain
    | Complete(h: nat)             // the device finishes a chain it has taken
    | Signal                       // one turn of virtio_disk_intr()'s loop
    | Finish(h: nat)               // virtio_disk_rw() after its last sleep
    | Touch(b: nat, v: int)        // the kernel changes a buffer that is in no request

  /** The place of counter n in a ring of eight entries. */
  function Ix(n: nat): (r: nat)
    ensures r < NUM && n == n / 8 * 8 + r
  {
    n % NUM
  }

  /** The next value of a 16-bit counter. */
  function Bump(i: nat): (r: nat)
    ensures i < 0xffff ==> r == i + 1
    ensures i == 0xffff ==> r == 0
  {
    (i + 1) % WRAP
  }

  ghost predicate Wf(s: State) {
    && |s.free| == NUM && |s.desc| == NUM && |s.ops| == NUM && |s.info| == NUM && |s.status| == NUM
    && |s.avail| == NUM && |s.used| == NUM && |s.own| == NUM
  }

  ghost predicate FillStep(s: State, b: nat, header: Header, s': State)
    requires Wf(s)
  {
    // the caller holds vdisk_lock, and the buffer's sleep lock, so that no other request has the buffer
    && s.driver == None
    && (forall h :: h in s.flight ==> s.flight[h].b != b)
    && b in s.bufs && header.sector in s.disk
    && Alloc3(s.free).Some?
    && var t := Alloc3(s.free).value;
    s' == s.(
      free := Mark(s.free, t, false),
      desc := Chain(s.desc, t, b, header.write),
      ops := s.ops[t.a := header],
      info := s.info[t.a := Some(b)],
      status := s.status[t.a := 0xff],
      busy := s.busy + {b},
      flight := s.flight[t.a := Req(t.b, t.c, b, header, s.posted, Filled)],
      own := s.own[t.a := Some(t.a)][t.b := Some(t.a)][t.c := Some(t.a)],
      driver := Some(t.a))
  }

  ghost predicate EnterStep(s: State, s': State)
    requires Wf(s)
  {
    && s.driver.Some? && s.driver.value in s.flight && s.flight[s.driver.value].phase == Filled
    && var h := s.driver.value;
    s' == s.(avail := s.avail[Ix(s.availIdx) := h], flight := s.flight[h := s.flight[h].(phase := Entered)])
  }

  ghost predicate PublishStep(s: State, s': State)
    requires Wf(s)
  {
    && s.driver.Some? && s.driver.value in s.flight && s.flight[s.driver.value].phase == Entered
    && var h := s.driver.value;
    s' == s.(availIdx := Bump(s.availIdx), posted := s.posted + 1, driver := None,
             flight := s.flight[h := s.flight[h].(phase := Posted(s.posted))])
  }

  ghost predicate FetchStep(s: State, s': State)
    requires Wf(s)
  {
    && s.devIdx != s.availIdx
    && var h := s.avail[Ix(s.devIdx)];
    && h in s.flight
    && s' == s.(devIdx := Bump(s.devIdx), fetched := s.fetched + 1,
                flight := s.flight[h := s.flight[h].(phase := Taken)])
  }

  /** The device follows the chain from its head: header, data, status. */
  ghost predicate CompleteStep(s: State, h: nat, s': State)
    requires Wf(s)
  {
    && h in s.flight && s.flight[h].phase == Taken && h < NUM
    && var d0 := s.desc[h];
    && d0.chained && d0.addr.Op? && d0.addr.i < NUM && d0.next < NUM
    && var d1 := s.desc[d0.next];
    && d1.chained && d1.addr.Data? && d1.next < NUM
    && var d2 := s.desc[d1.next];
    && !d2.chained && d2.addr.Status? && d2.addr.i < NUM
    && var op := s.ops[d0.addr.i];
    && d1.addr.b in s.bufs && op.sector in s.disk && d1.deviceWrites == !op.write
    && s' == s.(
      disk := if op.write then s.disk[op.sector := s.bufs[d1.addr.b]] else s.disk,
      bufs := if op.write then s.bufs else s.bufs[d1.addr.b := s.disk[op.sector]],
      status := s.status[d2.addr.i := 0],
      used := s.used[Ix(s.usedIdx) := h],
      usedIdx := Bump(s.usedIdx),
      finished := s.finished + 1,
      completed := s.completed + {s.flight[h].id},
      flight := s.flight[h := s.flight[h].(phase := Used(s.finished))])
  }

  ghost predicate SignalStep(s: State, s': State)
    requires Wf(s)
  {
    && s.driver == None && s.seenIdx != s.usedIdx
    && var h := s.used[Ix(s.seenIdx)];
    && h < NUM && s.status[h] == 0 && s.info[h].Some? && h in s.flight
    && s' == s.(busy := s.busy - {s.info[h].value}, seenIdx := Bump(s.seenIdx), seen := s.seen + 1,
                flight := s.flight[h := s.flight[h].(phase := Signalled)])
  }

  ghost predicate FinishStep(s: State, h: nat, s': State)
    requires Wf(s)
  {
    && s.driver == None && h in s.flight && h < NUM && s.flight[h].b !in s.busy
    && var t := Triple(h, s.desc[h].next, if s.desc[h].next < NUM then s.desc[s.desc[h].next].next else 0);
    && t.b < NUM && t.c < NUM
    && s' == s.(
      info := s.info[h := None],
      free := Mark(s.free, t, true),
      desc := s.desc[t.a := CLEAR][t.b := CLEAR][t.c := CLEAR],
      flight := s.flight - {h},
      own := s.own[t.a := None][t.b := None][t.c := None])
  }

  ghost predicate TouchStep(s: State, b: nat, v: int, s': State) {
    b in s.bufs && (forall h :: h in s.flight ==> s.flight[h].b != b) && s' == s.(bufs := s.bufs[b := v])
  }

  ghost predicate Step(s: State, a: Action, s': State) {
    && Wf(s)
    && match a
      case Fill(b, header) => FillStep(s, b, header, s')
      case Enter => EnterStep(s, s')
      case Publish => PublishStep(s, s')
      case Fetch => FetchStep(s, s')
      case Complete(h) => CompleteStep(s, h, s')
      case Signal => SignalStep(s, s')
      case Finish(h) => FinishStep(s, h, s')
      case Touch(b, v) => TouchStep(s, b, v, s')
  }

  // ---------------------------------------------------------------- the invariant

  /** The chain headed by h is whole, in use, and says what its request asked for. */
  ghost predicate ChainOk(s: State, h: nat)
    requires Wf(s) && h in s.flight
  {
    var r := s.flight[h];
    && h < NUM && r.d1 < NUM && r.d2 < NUM && h != r.d1 && h != r.d2 && r.d1 != r.d2
    && s.own[h] == Some(h) && s.own[r.d1] == Some(h) && s.own[r.d2] == Some(h)
    && s.desc[h] == Desc(Op(h), true, false, r.d1)
    && s.desc[r.d1] == Desc(Data(r.b), true, !r.header.write, r.d2)
    && s.desc[r.d2] == Desc(Status(h), false, true, 0)
    && s.ops[h] == r.header && s.info[h] == Some(r.b)
    && r.b in s.bufs && r.header.sector in s.disk
  }

  /** The ring entries, counters and flags agree with how far the request is. */
  ghost predicate PhaseOk(s: State, h: nat)
    requires Wf(s) && h in s.flight && h < NUM
  {
    var r := s.flight[h];
    && (r.phase.Filled? || r.phase.Entered? <==> s.driver == Some(h))
    && (if s.driver == Some(h) then r.id == s.posted else r.id < s.posted)
    && (r.b in s.busy <==> !r.phase.Signalled?)
    && (r.id in s.completed <==> r.phase.Used? || r.phase.Signalled?)
    && (match r.phase
        case Filled => true
        case Entered => s.avail[Ix(s.posted)] == h
        case Posted(n) => n == r.id && s.fetched <= n && s.avail[Ix(n)] == h
        case Taken => r.id < s.fetched
        case Used(k) => s.seen <= k < s.finished && s.used[Ix(k)] == h && s.status[h] == 0
        case Signalled => true)
  }

  /** No two requests have the same buffer or the same number. */
  ghost predicate Single(s: State, h: nat)
    requires h in s.flight
  {
    forall g :: g in s.flight && g != h ==> s.flight[g].b != s.flight[h].b && s.flight[g].id != s.flight[h].id
  }

  ghost function FreeSet(free: seq<bool>): set<nat> { set i | 0 <= i < |free| && free[i] }
  ghost function PostedSet(f: map<nat, Req>): set<nat> { set h | h in f && f[h].phase.Posted? }
  ghost function UsedSet(f: map<nat, Req>): set<nat> { set h | h in f && f[h].phase.Used? }

  ghost predicate OwnOk(s: State, i: nat)
    requires Wf(s) && i < NUM
  {
    match s.own[i]
    case None => s.free[i]
    case Some(h) => !s.free[i] && h in s.flight && (i == h || i == s.flight[h].d1 || i == s.flight[h].d2)
  }

  /** Ring entry n has not been fetched yet and heads a posted chain. */
  ghost predicate AvailOk(s: State, n: nat)
    requires Wf(s)
  {
    var h := s.avail[Ix(n)];
    h in s.flight && s.flight[h].phase == Posted(n)
  }

  ghost predicate UsedOk(s: State, k: nat)
    requires Wf(s)
  {
    var h := s.used[Ix(k)];
    h in s.flight && s.flight[h].phase == Used(k)
  }

  ghost predicate ChainsInv(s: State)
    requires Wf(s)
  {
    && (forall h :: h in s.flight ==> ChainOk(s, h) && Single(s, h))
    && (forall i :: 0 <= i < NUM ==> OwnOk(s, i))
    && 3 * |s.flight.Keys| + |FreeSet(s.free)| == NUM
  }

  ghost predicate RingsInv(s: State)
    requires Wf(s)
  {
    && s.fetched <= s.posted && s.seen <= s.finished
    && s.availIdx == s.posted % WRAP && s.devIdx == s.fetched % WRAP
    && s.usedIdx == s.finished % WRAP && s.seenIdx == s.seen % WRAP
    && (forall n :: s.fetched <= n < s.posted ==> AvailOk(s, n))
    && (forall k :: s.seen <= k < s.finished ==> UsedOk(s, k))
    && s.posted - s.fetched == |PostedSet(s.flight)| && s.finished - s.seen == |UsedSet(s.flight)|
    && (forall h :: h in s.flight ==> h < NUM && PhaseOk(s, h))
    && (forall n :: n in s.completed ==> n < s.fetched)
    && (s.driver.Some? ==> s.driver.value in s.flight)
  }

  ghost predicate Inv(s: State) { Wf(s) && ChainsInv(s) && RingsInv(s) }

  // ---------------------------------------------------------------- arithmetic of the rings

  lemma RingIndex(a: nat)
    ensures Bump(a % WRAP) == (a + 1) % WRAP && Ix(a % WRAP) == Ix(a)
  {
    Counting.WrapAdd(a, 1, WRAP);
    Counting.WrapIndex(a, NUM, WRAP / NUM);
  }

  lemma OtherSlot(a: nat, b: nat)
    requires a < b < a + NUM
    ensures Ix(a) != Ix(b)
  {
    Counting.WrapEqual(a, b, NUM);
  }

  /** There is room for two chains, so neither ring is ever half full. */
  lemma FewInFlight(s: State)
    requires Inv(s)
    ensures |s.flight.Keys| <= 2 && s.posted - s.fetched <= 2 && s.finished - s.seen <= 2
  {
    Counting.Fewer(PostedSet(s.flight), s.flight.Keys);
    Counting.Fewer(UsedSet(s.flight), s.flight.Keys);
  }

  // ---------------------------------------------------------------- counting

  lemma MarkUsed(free: seq<bool>, t: Triple)
    requires t.a < t.b < t.c < |free| && free[t.a] && free[t.b] && free[t.c]
    ensures |FreeSet(Mark(free, t, false))| == |FreeSet(free)| - 3
  {
    var f1 := free[t.a := false];
    var f2 := f1[t.b := false];
    assert FreeSet(f1) == FreeSet(free) - {t.a};
    assert FreeSet(f2) == FreeSet(f1) - {t.b};
    assert FreeSet(f2[t.c := false]) == FreeSet(f2) - {t.c};
  }

  lemma MarkFree(free: seq<bool>, t: Triple)
    requires t.a < |free| && t.b < |free| && t.c < |free| && !free[t.a] && !free[t.b] && !free[t.c]
    requires t.a != t.b && t.a != t.c && t.b != t.c
    ensures |FreeSet(Mark(free, t, true))| == |FreeSet(free)| + 3
  {
    var f1 := free[t.a := true];
    var f2 := f1[t.b := true];
    var f3 := f2[t.c := true];
    assert FreeSet(f1) == FreeSet(free) + {t.a};
    assert FreeSet(f2) == FreeSet(f1) + {t.b};
    assert FreeSet(f3) == FreeSet(f2) + {t.c};
    hide FreeSet;
  }

  lemma CardPut(a: set<nat>, a': set<nat>, h: nat)
    requires a' - {h} == a - {h}
    ensures |a'| - (if h in a' then 1 else 0) == |a| - (if h in a then 1 else 0)
  {
    assert |a - {h}| == |a| - if h in a then 1 else 0;
    assert |a' - {h}| == |a'| - if h in a' then 1 else 0;
  }

  /** How the count of posted requests changes when h becomes r, or is new. */
  lemma PostedCount(f: map<nat, Req>, h: nat, r: Req)
    ensures |PostedSet(f[h := r])| ==
            |PostedSet(f)| - (if h in f && f[h].phase.Posted? then 1 else 0) + (if r.phase.Posted? then 1 else 0)
  {
    CardPut(PostedSet(f), PostedSet(f[h := r]), h);
  }

  lemma UsedCount(f: map<nat, Req>, h: nat, r: Req)
    ensures |UsedSet(f[h := r])| ==
            |UsedSet(f)| - (if h in f && f[h].phase.Used? then 1 else 0) + (if r.phase.Used? then 1 else 0)
  {
    CardPut(UsedSet(f), UsedSet(f[h := r]), h);
  }

  // ---------------------------------------------------------------- what the invariant says

  lemma WfOf(s: State)
    requires Inv(s)
    ensures Wf(s) && s.fetched <= s.posted && s.seen <= s.finished
    ensures Ix(s.availIdx) == Ix(s.posted) && Ix(s.usedIdx) == Ix(s.finished)
  {
    RingIndex(s.posted);
    RingIndex(s.finished);
  }

  lemma CountersOf(s: State)
    requires Inv(s)
    ensures s.availIdx == s.posted % WRAP && s.devIdx == s.fetched % WRAP
    ensures s.usedIdx == s.finished % WRAP && s.seenIdx == s.seen % WRAP
    ensures s.posted - s.fetched == |PostedSet(s.flight)| && s.finished - s.seen == |UsedSet(s.flight)|
    ensures forall n :: n in s.completed ==> n < s.fetched
    ensures s.driver.Some? ==> s.driver.value in s.flight
  {
  }

  lemma PhaseOf(s: State, g: nat)
    requires Inv(s) && g in s.flight
    ensures Wf(s) && g < NUM && PhaseOk(s, g) && Single(s, g)
  {
  }

  lemma ChainOf(s: State, g: nat)
    requires Inv(s) && g in s.flight
    ensures Wf(s) && ChainOk(s, g)
  {
  }

  lemma AvailOf(s: State, n: nat)
    requires Inv(s) && s.fetched <= n < s.posted
    ensures Wf(s) && AvailOk(s, n)
  {
  }

  lemma UsedOf(s: State, k: nat)
    requires Inv(s) && s.seen <= k < s.finished
    ensures Wf(s) && UsedOk(s, k)
  {
  }

  // ---------------------------------------------------------------- chains

  lemma FreeAlone(s: State, i: nat, h: nat)
    requires Wf(s) && ChainsInv(s) && i < NUM && s.free[i] && h in s.flight
    ensures s.own[i] == None && i != h && i != s.flight[h].d1 && i != s.flight[h].d2
  {
    assert OwnOk(s, i) && ChainOk(s, h);
  }

  /** The three descriptors of a new chain belong to no other. */
  lemma TripleAlone(s: State, h: nat)
    requires Wf(s) && ChainsInv(s) && Alloc3(s.free).Some? && h in s.flight
    ensures var t, r := Alloc3(s.free).value, s.flight[h];
            && h != t.a && h != t.b && h != t.c && r.d1 != t.a && r.d1 != t.b && r.d1 != t.c
            && r.d2 != t.a && r.d2 != t.b && r.d2 != t.c
  {
    var t := Alloc3(s.free).value;
    FreeAlone(s, t.a, h);
    FreeAlone(s, t.b, h);
    FreeAlone(s, t.c, h);
  }

  lemma FillChain(s: State, b: nat, header: Header, s': State, h: nat)
    requires Inv(s) && FillStep(s, b, header, s') && h in s'.flight
    ensures Wf(s') && ChainOk(s', h)
  {
    hide Inv;
    hide Alloc3;
    WfOf(s);
    if h in s.flight {
      ChainOf(s, h);
      AloneOf(s, h);
    }
  }

  lemma FillSingle(s: State, b: nat, header: Header, s': State, h: nat)
    requires Inv(s) && FillStep(s, b, header, s') && h in s'.flight
    ensures Single(s', h)
  {
    hide Alloc3;
    hide ChainOk;
    hide OwnOk;
    forall g | g in s'.flight && g != h
      ensures s'.flight[g].b != s'.flight[h].b && s'.flight[g].id != s'.flight[h].id
    {
      if g in s.flight {
        assert PhaseOk(s, g);
        TripleAlone(s, g);
      }
      if h in s.flight {
        assert PhaseOk(s, h) && Single(s, h);
        TripleAlone(s, h);
      }
    }
  }

  lemma FillOwn(s: State, b: nat, header: Header, s': State, i: nat)
    requires Inv(s) && FillStep(s, b, header, s') && i < NUM
    ensures Wf(s') && OwnOk(s', i)
  {
    hide Alloc3;
    hide RingsInv;
    hide ChainOk;
    assert OwnOk(s, i);
    if s.own[i].Some? {
      TripleAlone(s, s.own[i].value);
    }
  }

  lemma FillCount(s: State, b: nat, header: Header, s': State)
    requires Inv(s) && FillStep(s, b, header, s')
    ensures 3 * |s'.flight.Keys| + |FreeSet(s'.free)| == NUM
  {
    hide Alloc3;
    hide RingsInv;
    hide ChainOk;
    hide OwnOk;
    hide Mark;
    var t := Alloc3(s.free).value;
    MarkUsed(s.free, t);
    assert t.a !in s.flight by {
      if t.a in s.flight {
        TripleAlone(s, t.a);
      }
    }
    assert s'.flight.Keys == s.flight.Keys + {t.a};
  }

  lemma FillChains(s: State, b: nat, header: Header, s': State)
    requires Inv(s) && FillStep(s, b, header, s')
    ensures Wf(s') && ChainsInv(s')
  {
    hide RingsInv;
    hide ChainOk;
    hide OwnOk;
    hide Single;
    hide FreeSet;
    hide Alloc3;
    forall h | h in s'.flight
      ensures ChainOk(s', h) && Single(s', h)
    {
      FillChain(s, b, header, s', h);
      FillSingle(s, b, header, s', h);
    }
    forall i | 0 <= i < NUM
      ensures OwnOk(s', i)
    {
      FillOwn(s, b, header, s', i);
    }
    FillCount(s, b, header, s');
  }

  lemma PhaseSingle(s: State, s': State, h: nat, p: Phase, g: nat)
    requires Wf(s) && ChainsInv(s) && h in s.flight && g in s'.flight
    requires s'.flight == s.flight[h := s.flight[h].(phase := p)]
    ensures Single(s', g)
  {
    assert Single(s, g);
  }

  /** s' differs from s, as far as chains go, in the phase of request h only. */
  ghost predicate NextPhase(s: State, s': State, h: nat, p: Phase)
    requires Wf(s)
  {
    && h in s.flight && Wf(s')
    && s'.free == s.free && s'.desc == s.desc && s'.ops == s.ops && s'.info == s.info && s'.own == s.own
    && s'.flight == s.flight[h := s.flight[h].(phase := p)]
    && s'.bufs.Keys == s.bufs.Keys && s'.disk.Keys == s.disk.Keys
  }

  lemma PhaseChain(s: State, s': State, h: nat, p: Phase, g: nat)
    requires Wf(s) && ChainsInv(s) && NextPhase(s, s', h, p) && g in s'.flight
    ensures ChainOk(s', g)
  {
    assert ChainOk(s, g);
    hide ChainsInv;
  }

  lemma PhaseOwn(s: State, s': State, h: nat, p: Phase, i: nat)
    requires Wf(s) && ChainsInv(s) && NextPhase(s, s', h, p) && i < NUM
    ensures OwnOk(s', i)
  {
    assert OwnOk(s, i);
    hide ChainsInv;
  }

  /** A request that moves to its next phase keeps its chain. */
  lemma PhaseChains(s: State, s': State, h: nat, p: Phase)
    requires Wf(s) && ChainsInv(s) && NextPhase(s, s', h, p)
    ensures Wf(s') && ChainsInv(s')
  {
    hide FreeSet;
    hide ChainOk;
    hide OwnOk;
    hide Single;
    forall g | g in s'.flight
      ensures ChainOk(s', g) && Single(s', g)
    {
      PhaseChain(s, s', h, p, g);
      PhaseSingle(s, s', h, p, g);
    }
    forall i | 0 <= i < NUM
      ensures OwnOk(s', i)
    {
      PhaseOwn(s, s', h, p, i);
    }
    assert s'.flight.Keys == s.flight.Keys;
  }

  /** The chain that FinishStep() gives back is the one of request h. */
  lemma FinishDescs(s: State, h: nat, s': State)
    requires Wf(s) && ChainsInv(s) && FinishStep(s, h, s')
    ensures h in s.flight && ChainOk(s, h) && Wf(s')
    ensures var r := s.flight[h];
            && s'.desc == s.desc[h := CLEAR][r.d1 := CLEAR][r.d2 := CLEAR]
            && s'.own == s.own[h := None][r.d1 := None][r.d2 := None]
            && s'.free == s.free[h := true][r.d1 := true][r.d2 := true]
    ensures s'.flight == s.flight - {h} && s'.ops == s.ops && s'.info == s.info[h := None]
    ensures s'.bufs == s.bufs && s'.disk == s.disk
  {
    assert ChainOk(s, h);
    hide ChainsInv;
  }

  lemma ChainIn(s: State, g: nat)
    requires Wf(s) && ChainsInv(s) && g in s.flight
    ensures ChainOk(s, g)
  {
  }

  lemma OwnIn(s: State, i: nat)
    requires Wf(s) && ChainsInv(s) && i < NUM
    ensures OwnOk(s, i)
  {
  }

  lemma FinishChain(s: State, h: nat, s': State, g: nat)
    requires Wf(s) && ChainsInv(s) && FinishStep(s, h, s') && g in s'.flight
    ensures Wf(s') && ChainOk(s', g)
  {
    hide ChainsInv;
    FinishDescs(s, h, s');
    hide FinishStep;
    ChainIn(s, g);
  }

  lemma FinishSingle(s: State, h: nat, s': State, g: nat)
    requires Wf(s) && ChainsInv(s) && FinishStep(s, h, s') && g in s'.flight
    ensures Single(s', g)
  {
    assert Single(s, g);
  }

  lemma FinishOwn(s: State, h: nat, s': State, i: nat)
    requires Wf(s) && ChainsInv(s) && FinishStep(s, h, s') && i < NUM
    ensures Wf(s') && OwnOk(s', i)
  {
    hide ChainsInv;
    FinishDescs(s, h, s');
    hide FinishStep;
    OwnIn(s, i);
  }

  /** No descriptor of a finished chain is free already: free_desc() does not panic. */
  lemma FinishFrees(s: State, h: nat)
    requires Wf(s) && ChainsInv(s) && h in s.flight
    ensures var r := s.flight[h];
            && h < NUM && r.d1 < NUM && r.d2 < NUM && h != r.d1 && h != r.d2 && r.d1 != r.d2
            && !s.free[h] && !s.free[r.d1] && !s.free[r.d2]
            && s.desc[h].chained && s.desc[h].next == r.d1 && s.desc[r.d1].chained && s.desc[r.d1].next == r.d2
            && !s.desc[r.d2].chained
  {
    assert ChainOk(s, h) && OwnOk(s, h) && OwnOk(s, s.flight[h].d1) && OwnOk(s, s.flight[h].d2);
  }

  lemma FinishChains(s: State, h: nat, s': State)
    requires Wf(s) && ChainsInv(s) && FinishStep(s, h, s')
    ensures Wf(s') && ChainsInv(s')
  {
    hide ChainOk;
    hide OwnOk;
    hide Single;
    hide FreeSet;
    hide Mark;
    FinishFrees(s, h);
    MarkFree(s.free, Triple(h, s.flight[h].d1, s.flight[h].d2));
    forall g | g in s'.flight
      ensures ChainOk(s', g) && Single(s', g)
    {
      FinishChain(s, h, s', g);
      FinishSingle(s, h, s', g);
    }
    forall i | 0 <= i < NUM
      ensures OwnOk(s', i)
    {
      FinishOwn(s, h, s', i);
    }
    assert s'.flight.Keys == s.flight.Keys - {h};
  }

  // ---------------------------------------------------------------- rings

  lemma AloneOf(s: State, h: nat)
    requires Inv(s) && Alloc3(s.free).Some? && h in s.flight
    ensures var t, r := Alloc3(s.free).value, s.flight[h];
            && h != t.a && h != t.b && h != t.c && r.d1 != t.a && r.d1 != t.b && r.d1 != t.c
            && r.d2 != t.a && r.d2 != t.b && r.d2 != t.c
  {
    hide ChainsInv;
    hide RingsInv;
    TripleAlone(s, h);
  }

  lemma NotCompleted(s: State)
    requires Inv(s)
    ensures s.posted !in s.completed && s.fetched <= s.posted
  {
    assert s.posted in s.completed ==> s.posted < s.fetched;
  }

  lemma FillAvail(s: State, b: nat, header: Header, s': State, n: nat)
    requires Inv(s) && FillStep(s, b, header, s') && s.fetched <= n < s.posted
    ensures Wf(s') && AvailOk(s', n)
  {
    hide Inv;
    hide Alloc3;
    hide Mark;
    hide Chain;
    hide Ix;
    AvailOf(s, n);
    AloneOf(s, s.avail[Ix(n)]);
  }

  lemma FillUsed(s: State, b: nat, header: Header, s': State, k: nat)
    requires Inv(s) && FillStep(s, b, header, s') && s.seen <= k < s.finished
    ensures Wf(s') && UsedOk(s', k)
  {
    hide Inv;
    hide Alloc3;
    hide Mark;
    hide Chain;
    hide Ix;
    UsedOf(s, k);
    AloneOf(s, s.used[Ix(k)]);
  }

  lemma FillPhase(s: State, b: nat, header: Header, s': State, h: nat)
    requires Inv(s) && FillStep(s, b, header, s') && h in s'.flight
    ensures Wf(s') && h < NUM && PhaseOk(s', h)
  {
    hide Inv;
    hide Alloc3;
    hide Mark;
    hide Chain;
    hide Ix;
    WfOf(s);
    if h in s.flight {
      AloneOf(s, h);
      PhaseOf(s, h);
    } else {
      NotCompleted(s);
    }
  }

  lemma FillRings(s: State, b: nat, header: Header, s': State)
    requires Inv(s) && FillStep(s, b, header, s')
    ensures Wf(s') && RingsInv(s')
  {
    hide AvailOk;
    hide UsedOk;
    hide PhaseOk;
    hide ChainsInv;
    hide Ix;
    hide Alloc3;
    hide PostedSet;
    hide UsedSet;
    var t := Alloc3(s.free).value;
    forall n | s'.fetched <= n < s'.posted
      ensures AvailOk(s', n)
    {
      FillAvail(s, b, header, s', n);
    }
    forall k | s'.seen <= k < s'.finished
      ensures UsedOk(s', k)
    {
      FillUsed(s, b, header, s', k);
    }
    forall h | h in s'.flight
      ensures h < NUM && PhaseOk(s', h)
    {
      FillPhase(s, b, header, s', h);
    }
    assert t.a !in s.flight by {
      if t.a in s.flight {
        TripleAlone(s, t.a);
      }
    }
    PostedCount(s.flight, t.a, s'.flight[t.a]);
    UsedCount(s.flight, t.a, s'.flight[t.a]);
  }

  /** The entry that is being written is none that the device has yet to read. */
  lemma EnterAvail(s: State, s': State, n: nat)
    requires Inv(s) && EnterStep(s, s') && s.fetched <= n < s.posted
    ensures Wf(s') && AvailOk(s', n)
  {
    hide Inv;
    hide Ix;
    WfOf(s);
    FewInFlight(s);
    AvailOf(s, n);
    OtherSlot(n, s.posted);
  }

  lemma EnterPhase(s: State, s': State, g: nat)
    requires Inv(s) && EnterStep(s, s') && g in s'.flight
    ensures Wf(s') && g < NUM && PhaseOk(s', g)
  {
    hide Inv;
    hide Ix;
    WfOf(s);
    FewInFlight(s);
    PhaseOf(s, g);
    if s.flight[g].phase.Posted? {
      OtherSlot(s.flight[g].phase.n, s.posted);
    }
  }

  lemma EnterRings(s: State, s': State)
    requires Inv(s) && EnterStep(s, s')
    ensures Wf(s') && RingsInv(s')
  {
    hide Inv;
    hide Ix;
    WfOf(s);
    CountersOf(s);
    hide ChainsInv;
    hide PostedSet;
    hide UsedSet;
    hide PhaseOk;
    hide AvailOk;
    var h := s.driver.value;
    forall n | s'.fetched <= n < s'.posted
      ensures AvailOk(s', n)
    {
      EnterAvail(s, s', n);
    }
    forall k | s'.seen <= k < s'.finished
      ensures UsedOk(s', k)
    {
      UsedOf(s, k);
    }
    forall g | g in s'.flight
      ensures g < NUM && PhaseOk(s', g)
    {
      EnterPhase(s, s', g);
    }
    PostedCount(s.flight, h, s'.flight[h]);
    UsedCount(s.flight, h, s'.flight[h]);
  }

  /** The index covers a new entry only when the entry is there. */
  lemma PublishAvail(s: State, s': State, n: nat)
    requires Inv(s) && PublishStep(s, s') && s.fetched <= n <= s.posted
    ensures Wf(s') && AvailOk(s', n)
  {
    hide Inv;
    hide Ix;
    WfOf(s);
    PhaseOf(s, s.driver.value);
    if n < s.posted {
      AvailOf(s, n);
    }
  }

  lemma PublishPhase(s: State, s': State, g: nat)
    requires Inv(s) && PublishStep(s, s') && g in s'.flight
    ensures Wf(s') && g < NUM && PhaseOk(s', g)
  {
    hide Inv;
    hide Ix;
    WfOf(s);
    PhaseOf(s, g);
  }

  lemma PublishRings(s: State, s': State)
    requires Inv(s) && PublishStep(s, s')
    ensures Wf(s') && RingsInv(s')
  {
    hide Inv;
    hide Ix;
    WfOf(s);
    CountersOf(s);
    RingIndex(s.posted);
    hide ChainsInv;
    hide PostedSet;
    hide UsedSet;
    hide PhaseOk;
    hide AvailOk;
    var h := s.driver.value;
    forall n | s'.fetched <= n < s'.posted
      ensures AvailOk(s', n)
    {
      PublishAvail(s, s', n);
    }
    forall k | s'.seen <= k < s'.finished
      ensures UsedOk(s', k)
    {
      UsedOf(s, k);
    }
    forall g | g in s'.flight
      ensures g < NUM && PhaseOk(s', g)
    {
      PublishPhase(s, s', g);
    }
    PostedCount(s.flight, h, s'.flight[h]);
    UsedCount(s.flight, h, s'.flight[h]);
  }

  /** What the device finds in the avail ring once the index says that there is something: the
      head of a request that the driver has filled in, entered and published. */
  lemma FetchPosted(s: State)
    requires Inv(s) && s.devIdx != s.availIdx
    ensures s.fetched < s.posted && Ix(s.devIdx) == Ix(s.fetched)
    ensures var h := s.avail[Ix(s.devIdx)];
            h in s.flight && s.flight[h].phase == Posted(s.fetched) && s.flight[h].id == s.fetched && Single(s, h)
  {
    FewInFlight(s);
    Counting.WrapEqual(s.fetched, s.posted, WRAP);
    RingIndex(s.fetched);
    assert AvailOk(s, s.fetched);
    assert PhaseOk(s, s.avail[Ix(s.fetched)]);
  }

  lemma FetchPhase(s: State, s': State, g: nat)
    requires Inv(s) && FetchStep(s, s') && g in s'.flight
    ensures Wf(s') && g < NUM && PhaseOk(s', g)
  {
    hide Inv;
    hide Ix;
    FetchPosted(s);
    PhaseOf(s, g);
    PhaseOf(s, s.avail[Ix(s.devIdx)]);
  }

  lemma FetchRings(s: State, s': State)
    requires Inv(s) && FetchStep(s, s')
    ensures Wf(s') && RingsInv(s')
  {
    hide PhaseOk;
    hide ChainsInv;
    hide Ix;
    hide PostedSet;
    hide UsedSet;
    FetchPosted(s);
    RingIndex(s.fetched);
    var h := s.avail[Ix(s.devIdx)];
    forall n | s'.fetched <= n < s'.posted
      ensures AvailOk(s', n)
    {
      assert AvailOk(s, n);
    }
    forall k | s'.seen <= k < s'.finished
      ensures UsedOk(s', k)
    {
      assert UsedOk(s, k);
    }
    forall g | g in s'.flight
      ensures g < NUM && PhaseOk(s', g)
    {
      FetchPhase(s, s', g);
    }
    PostedCount(s.flight, h, s'.flight[h]);
    UsedCount(s.flight, h, s'.flight[h]);
  }

  lemma CompleteUsed(s: State, h: nat, s': State, k: nat)
    requires Inv(s) && CompleteStep(s, h, s') && s.seen <= k <= s.finished
    ensures Wf(s') && UsedOk(s', k)
  {
    hide Inv;
    hide Ix;
    WfOf(s);
    FewInFlight(s);
    CompleteFrame(s, h, s');
    if k < s.finished {
      UsedOf(s, k);
      OtherSlot(k, s.finished);
    }
    hide CompleteStep;
  }

  lemma CompleteFrame(s: State, h: nat, s': State)
    requires Inv(s) && CompleteStep(s, h, s')
    ensures Wf(s') && Single(s, h) && s.flight[h].id < s.fetched && s.flight[h].phase == Taken
    ensures s'.flight == s.flight[h := s.flight[h].(phase := Used(s.finished))]
    ensures s'.completed == s.completed + {s.flight[h].id} && s'.driver == s.driver
    ensures s'.posted == s.posted && s'.fetched == s.fetched && s'.finished == s.finished + 1 && s'.seen == s.seen
    ensures s'.availIdx == s.availIdx && s'.devIdx == s.devIdx && s'.usedIdx == Bump(s.usedIdx)
            && s'.seenIdx == s.seenIdx
    ensures s'.avail == s.avail && s'.used == s.used[Ix(s.usedIdx) := h] && s'.status == s.status[h := 0]
            && s'.busy == s.busy
  {
    hide Inv;
    ChainOf(s, h);
    PhaseOf(s, h);
    hide Single;
  }

  lemma CompleteAvail(s: State, h: nat, s': State, n: nat)
    requires Inv(s) && CompleteStep(s, h, s') && s.fetched <= n < s.posted
    ensures Wf(s') && AvailOk(s', n)
  {
    hide Inv;
    hide Ix;
    AvailOf(s, n);
  }

  lemma CompleteOwnPhase(s: State, h: nat, s': State)
    requires Inv(s) && CompleteStep(s, h, s')
    ensures Wf(s') && h in s'.flight && h < NUM && PhaseOk(s', h)
  {
    hide Inv;
    hide Ix;
    WfOf(s);
    PhaseOf(s, h);
    CompleteFrame(s, h, s');
    hide CompleteStep;
  }

  lemma CompleteOtherPhase(s: State, h: nat, s': State, g: nat)
    requires Inv(s) && CompleteStep(s, h, s') && g in s.flight && g != h
    ensures Wf(s') && g in s'.flight && g < NUM && PhaseOk(s', g)
  {
    hide Inv;
    hide Ix;
    WfOf(s);
    FewInFlight(s);
    PhaseOf(s, g);
    CompleteFrame(s, h, s');
    if s.flight[g].phase.Used? {
      OtherSlot(s.flight[g].phase.k, s.finished);
    }
    hide CompleteStep;
  }

  lemma CompletePhase(s: State, h: nat, s': State, g: nat)
    requires Inv(s) && CompleteStep(s, h, s') && g in s'.flight
    ensures Wf(s') && g < NUM && PhaseOk(s', g)
  {
    hide PhaseOk;
    hide Inv;
    if g == h {
      CompleteOwnPhase(s, h, s');
    } else {
      CompleteOtherPhase(s, h, s', g);
    }
  }

  lemma CompleteCounts(s: State, h: nat, s': State)
    requires Inv(s) && CompleteStep(s, h, s')
    ensures s'.posted - s'.fetched == |PostedSet(s'.flight)| && s'.finished - s'.seen == |UsedSet(s'.flight)|
  {
    CompleteFrame(s, h, s');
    PostedCount(s.flight, h, s'.flight[h]);
    UsedCount(s.flight, h, s'.flight[h]);
  }

  lemma CompleteRings(s: State, h: nat, s': State)
    requires Inv(s) && CompleteStep(s, h, s')
    ensures Wf(s') && RingsInv(s')
  {
    hide CompleteStep;
    hide PhaseOk;
    hide UsedOk;
    hide AvailOk;
    hide Single;
    hide ChainsInv;
    CompleteFrame(s, h, s');
    hide Ix;
    hide PostedSet;
    hide UsedSet;
    RingIndex(s.finished);
    forall n | s'.fetched <= n < s'.posted
      ensures AvailOk(s', n)
    {
      CompleteAvail(s, h, s', n);
    }
    forall k | s'.seen <= k < s'.finished
      ensures UsedOk(s', k)
    {
      CompleteUsed(s, h, s', k);
    }
    forall g | g in s'.flight
      ensures g < NUM && PhaseOk(s', g)
    {
      CompletePhase(s, h, s', g);
    }
    CompleteCounts(s, h, s');
  }

  /** What virtio_disk_intr() finds in the used ring: a completed request of this driver,
      with status 0, whose buffer is the one that is marked as done. */
  lemma SignalUsed(s: State)
    requires Inv(s) && s.seenIdx != s.usedIdx
    ensures s.seen < s.finished && Ix(s.seenIdx) == Ix(s.seen)
    ensures var h := s.used[Ix(s.seenIdx)];
            && h in s.flight && h < NUM && s.flight[h].phase == Used(s.seen) && Single(s, h)
            && s.status[h] == 0 && s.info[h] == Some(s.flight[h].b) && s.flight[h].id in s.completed
  {
    FewInFlight(s);
    Counting.WrapEqual(s.seen, s.finished, WRAP);
    RingIndex(s.seen);
    assert UsedOk(s, s.seen);
    var h := s.used[Ix(s.seen)];
    assert PhaseOk(s, h) && ChainOk(s, h);
  }

  lemma SignalPhase(s: State, s': State, g: nat)
    requires Inv(s) && SignalStep(s, s') && g in s'.flight
    ensures Wf(s') && g < NUM && PhaseOk(s', g)
  {
    hide Inv;
    hide Ix;
    SignalUsed(s);
    PhaseOf(s, g);
  }

  lemma SignalWindows(s: State, s': State, n: nat)
    requires Inv(s) && SignalStep(s, s')
    ensures Wf(s')
    ensures s.fetched <= n < s.posted ==> AvailOk(s', n)
    ensures s.seen < n < s.finished ==> UsedOk(s', n)
  {
    hide Inv;
    hide Ix;
    WfOf(s);
    SignalUsed(s);
    if s.fetched <= n < s.posted {
      AvailOf(s, n);
    }
    if s.seen < n < s.finished {
      UsedOf(s, n);
    }
  }

  lemma SignalRings(s: State, s': State)
    requires Inv(s) && SignalStep(s, s')
    ensures Wf(s') && RingsInv(s')
  {
    hide Inv;
    WfOf(s);
    CountersOf(s);
    SignalUsed(s);
    hide ChainsInv;
    hide Ix;
    hide PostedSet;
    hide UsedSet;
    hide PhaseOk;
    hide AvailOk;
    hide UsedOk;
    RingIndex(s.seen);
    var h := s.used[Ix(s.seenIdx)];
    forall n | s'.fetched <= n < s'.posted
      ensures AvailOk(s', n)
    {
      SignalWindows(s, s', n);
    }
    forall k | s'.seen <= k < s'.finished
      ensures UsedOk(s', k)
    {
      SignalWindows(s, s', k);
    }
    forall g | g in s'.flight
      ensures g < NUM && PhaseOk(s', g)
    {
      SignalPhase(s, s', g);
    }
    PostedCount(s.flight, h, s'.flight[h]);
    UsedCount(s.flight, h, s'.flight[h]);
  }

  /** A thread that finds its buffer done has been signalled. */
  lemma FinishSignalled(s: State, h: nat)
    requires Inv(s) && h in s.flight && s.flight[h].b !in s.busy
    ensures s.flight[h].phase == Signalled && s.flight[h].id in s.completed
  {
    assert PhaseOk(s, h);
  }

  lemma FinishPhase(s: State, h: nat, s': State, g: nat)
    requires Inv(s) && FinishStep(s, h, s') && g in s'.flight
    ensures Wf(s') && g < NUM && PhaseOk(s', g)
  {
    hide Inv;
    hide Ix;
    hide Mark;
    PhaseOf(s, g);
  }

  lemma FinishWindows(s: State, h: nat, s': State, n: nat)
    requires Inv(s) && FinishStep(s, h, s')
    ensures Wf(s')
    ensures s.fetched <= n < s.posted ==> AvailOk(s', n)
    ensures s.seen <= n < s.finished ==> UsedOk(s', n)
  {
    hide Inv;
    hide Ix;
    hide Mark;
    WfOf(s);
    FinishSignalled(s, h);
    if s.fetched <= n < s.posted {
      AvailOf(s, n);
    }
    if s.seen <= n < s.finished {
      UsedOf(s, n);
    }
  }

  lemma SetsKept(f: map<nat, Req>, h: nat)
    requires h in f && f[h].phase == Signalled
    ensures PostedSet(f - {h}) == PostedSet(f) && UsedSet(f - {h}) == UsedSet(f)
  {
  }

  lemma FinishFrame(s: State, h: nat, s': State)
    requires Wf(s) && FinishStep(s, h, s')
    ensures Wf(s') && s'.flight == s.flight - {h} && s'.completed == s.completed
    ensures s'.posted == s.posted && s'.fetched == s.fetched && s'.finished == s.finished && s'.seen == s.seen
    ensures s'.availIdx == s.availIdx && s'.devIdx == s.devIdx && s'.usedIdx == s.usedIdx && s'.seenIdx == s.seenIdx
  {
  }

  lemma FinishRings(s: State, h: nat, s': State)
    requires Inv(s) && FinishStep(s, h, s')
    ensures Wf(s') && RingsInv(s')
  {
    hide Inv;
    WfOf(s);
    CountersOf(s);
    FinishSignalled(s, h);
    FinishFrame(s, h, s');
    SetsKept(s.flight, h);
    hide FinishStep;
    hide ChainsInv;
    hide PostedSet;
    hide UsedSet;
    hide PhaseOk;
    hide AvailOk;
    hide UsedOk;
    forall n | s'.fetched <= n < s'.posted
      ensures AvailOk(s', n)
    {
      FinishWindows(s, h, s', n);
    }
    forall k | s'.seen <= k < s'.finished
      ensures UsedOk(s', k)
    {
      FinishWindows(s, h, s', k);
    }
    forall g | g in s'.flight
      ensures g < NUM && PhaseOk(s', g)
    {
      FinishPhase(s, h, s', g);
    }
  }

  lemma TouchChains(s: State, b: nat, v: int, s': State)
    requires Wf(s) && ChainsInv(s) && TouchStep(s, b, v, s')
    ensures Wf(s') && ChainsInv(s')
  {
    hide FreeSet;
    hide Single;
    forall h | h in s'.flight
      ensures ChainOk(s', h) && Single(s', h)
    {
      assert ChainOk(s, h);
      TouchSingle(s, s', h);
    }
    hide ChainOk;
    forall i | 0 <= i < NUM
      ensures OwnOk(s', i)
    {
      assert OwnOk(s, i);
    }
    hide OwnOk;
  }

  lemma TouchSingle(s: State, s': State, h: nat)
    requires Wf(s) && ChainsInv(s) && s'.flight == s.flight && h in s.flight
    ensures Single(s', h)
  {
    assert Single(s, h);
  }

  lemma TouchRings(s: State, b: nat, v: int, s': State)
    requires Wf(s) && RingsInv(s) && TouchStep(s, b, v, s')
    ensures Wf(s') && RingsInv(s')
  {
    hide PostedSet;
    hide UsedSet;
    hide Ix;
    forall h | h in s'.flight
      ensures h < NUM && PhaseOk(s', h)
    {
      assert PhaseOk(s, h);
    }
    hide PhaseOk;
    forall n | s'.fetched <= n < s'.posted
      ensures AvailOk(s', n)
    {
      assert AvailOk(s, n);
    }
    hide AvailOk;
    forall n | s'.seen <= n < s'.finished
      ensures UsedOk(s', n)
    {
      assert UsedOk(s, n);
    }
    hide UsedOk;
  }

  /** Every step of driver and device keeps the invariant. */
  lemma StepKeeps(s: State, a: Action, s': State)
    requires Inv(s) && Step(s, a, s')
    ensures Inv(s')
  {
    hide RingsInv;
    hide ChainsInv;
    hide Ix;
    match a
    case Fill(b, header) =>
      FillChains(s, b, header, s');
      FillRings(s, b, header, s');
    case Enter =>
      PhaseChains(s, s', s.driver.value, Entered);
      EnterRings(s, s');
    case Publish =>
      PhaseChains(s, s', s.driver.value, Posted(s.posted));
      PublishRings(s, s');
    case Fetch =>
      PhaseChains(s, s', s.avail[Ix(s.devIdx)], Taken);
      FetchRings(s, s');
    case Complete(h) =>
      CompleteServes(s, h, s');
      PhaseChains(s, s', h, Used(s.finished));
      CompleteRings(s, h, s');
    case Signal =>
      PhaseChains(s, s', s.used[Ix(s.seenIdx)], Signalled);
      SignalRings(s, s');
    case Finish(h) =>
      FinishChains(s, h, s');
      FinishRings(s, h, s');
    case Touch(b, v) =>
      TouchChains(s, b, v, s');
      TouchRings(s, b, v, s');
  }

  /** The device moves the data that the request named, and no other. */
  lemma CompleteServes(s: State, h: nat, s': State)
    requires Inv(s) && CompleteStep(s, h, s')
    ensures var r := s.flight[h];
            && r.b in s.bufs && r.header.sector in s.disk
            && (r.header.write ==> s'.bufs == s.bufs && s'.disk == s.disk[r.header.sector := s.bufs[r.b]])
            && (!r.header.write ==> s'.disk == s.disk && s'.bufs == s.bufs[r.b := s.disk[r.header.sector]])
            && s'.bufs.Keys == s.bufs.Keys && s'.disk.Keys == s.disk.Keys
  {
    hide Inv;
    ChainOf(s, h);
  }

  // ---------------------------------------------------------------- runs

  /** virtio_disk_init(). */
  ghost predicate Init(s: State) {
    && Wf(s) && s.flight == map[] && s.completed == {} && s.driver == None
    && (forall i :: 0 <= i < NUM ==> s.free[i] && s.own[i] == None)
    && s.availIdx == 0 && s.devIdx == 0 && s.usedIdx == 0 && s.seenIdx == 0
    && s.posted == 0 && s.fetched == 0 && s.finished == 0 && s.seen == 0
  }

  lemma InitInv(s: State)
    requires Init(s)
    ensures Inv(s)
  {
    AllFree(s.free);
    assert PostedSet(s.flight) == {} && UsedSet(s.flight) == {};
    hide FreeSet;
  }

  lemma AllFree(free: seq<bool>)
    requires |free| == NUM && forall i :: 0 <= i < NUM ==> free[i]
    ensures |FreeSet(free)| == NUM
  {
    var all := {0, 1, 2, 3, 4, 5, 6, 7};
    assert |all| == NUM;
    forall i
      ensures i in FreeSet(free) <==> i in all
    {
    }
    assert FreeSet(free) == all;
  }

  ghost predicate StepAt(ss: seq<State>, es: seq<Action>, i: nat)
    requires i < |es| && |ss| == |es| + 1
  {
    Step(ss[i], es[i], ss[i + 1])
  }

  ghost predicate IsRun(ss: seq<State>, es: seq<Action>) {
    |ss| == |es| + 1 && Init(ss[0]) && forall i :: 0 <= i < |es| ==> StepAt(ss, es, i)
  }

  lemma {:induction false} RunInv(ss: seq<State>, es: seq<Action>, i: nat)
    requires IsRun(ss, es) && i < |ss|
    ensures Inv(ss[i])
  {
    hide Inv;
    hide Step;
    if i == 0 {
      InitInv(ss[0]);
    } else {
      RunInv(ss, es, i - 1);
      assert StepAt(ss, es, i - 1);
      StepKeeps(ss[i - 1], es[i - 1], ss[i]);
    }
  }

  /** Descriptor i is one of the three of the chain headed by h. */
  ghost predicate InChain(s: State, h: nat, i: nat) {
    h in s.flight && (i == h || i == s.flight[h].d1 || i == s.flight[h].d2)
  }

  lemma ChainOwns(s: State, h: nat, i: nat)
    requires Wf(s) && ChainsInv(s) && InChain(s, h, i) && i < NUM
    ensures s.own[i] == Some(h)
  {
    assert ChainOk(s, h);
    hide ChainsInv;
  }

  ghost predicate OnlyIn(s: State, g: nat, i: nat) {
    InChain(s, g, i) && forall h :: InChain(s, h, i) ==> h == g
  }

  lemma FreeOrOwned(s: State, i: nat)
    requires Wf(s) && ChainsInv(s) && i < NUM
    ensures s.free[i] ==> forall h :: !InChain(s, h, i)
    ensures !s.free[i] ==> s.own[i].Some? && OnlyIn(s, s.own[i].value, i)
  {
    assert OwnOk(s, i);
    forall h: nat | InChain(s, h, i)
      ensures s.own[i] == Some(h)
    {
      ChainOwns(s, h, i);
    }
    hide ChainsInv;
  }

  /** In every reachable state each descriptor is free or in exactly one chain of three. */
  lemma Partition(ss: seq<State>, es: seq<Action>, n: nat, i: nat)
    requires IsRun(ss, es) && n < |ss| && i < NUM
    ensures Wf(ss[n]) && 3 * |ss[n].flight.Keys| + |FreeSet(ss[n].free)| == NUM
    ensures ss[n].free[i] <==> forall h :: !InChain(ss[n], h, i)
    ensures !ss[n].free[i] ==> exists g :: OnlyIn(ss[n], g, i)
  {
    RunInv(ss, es, n);
    FreeOrOwned(ss[n], i);
    hide IsRun;
    hide RingsInv;
    hide ChainOk;
    hide OwnOk;
    hide Single;
    hide FreeSet;
    if !ss[n].free[i] {
      assert OnlyIn(ss[n], ss[n].own[i].value, i);
    }
  }

  lemma StepFrame(s: State, a: Action, s': State)
    requires Step(s, a, s')
    ensures Wf(s')
    ensures forall x :: 0 <= x < NUM && x != Ix(s.availIdx) ==> s'.avail[x] == s.avail[x]
    ensures forall x :: 0 <= x < NUM && x != Ix(s.usedIdx) ==> s'.used[x] == s.used[x]
  {
    hide Alloc3;
    hide Mark;
    hide Chain;
    hide Ix;
  }

  lemma KeepsEntries(s: State, a: Action, s': State, n: nat)
    requires Inv(s) && Step(s, a, s')
    ensures Wf(s') && (s.fetched <= n < s.posted ==> s'.avail[Ix(n)] == s.avail[Ix(n)])
    ensures s.seen <= n < s.finished ==> s'.used[Ix(n)] == s.used[Ix(n)]
  {
    hide Inv;
    hide Step;
    hide Ix;
    WfOf(s);
    FewInFlight(s);
    StepFrame(s, a, s');
    if s.fetched <= n < s.posted {
      OtherSlot(n, s.posted);
    }
    if s.seen <= n < s.finished {
      OtherSlot(n, s.finished);
    }
  }

  /** In every run, a ring entry that the other side has not read yet stays as it is, also when
      the 16-bit indices wrap around. */
  lemma NoOverwrite(ss: seq<State>, es: seq<Action>, i: nat, n: nat)
    requires IsRun(ss, es) && i < |es|
    ensures Wf(ss[i]) && Wf(ss[i + 1])
    ensures ss[i].fetched <= n < ss[i].posted ==> ss[i + 1].avail[Ix(n)] == ss[i].avail[Ix(n)]
    ensures ss[i].seen <= n < ss[i].finished ==> ss[i + 1].used[Ix(n)] == ss[i].used[Ix(n)]
  {
    hide ChainsInv;
    hide RingsInv;
    hide Step;
    RunInv(ss, es, i);
    RunInv(ss, es, i + 1);
    assert StepAt(ss, es, i);
    KeepsEntries(ss[i], es[i], ss[i + 1], n);
  }

  lemma {:induction false} CompletedStays(ss: seq<State>, es: seq<Action>, i: nat, j: nat, id: nat)
    requires IsRun(ss, es) && i <= j < |ss| && id in ss[i].completed
    ensures id in ss[j].completed
  {
    if i < j {
      CompletedStays(ss, es, i, j - 1, id);
      assert StepAt(ss, es, j - 1);
    }
  }

  /** No request is completed twice. */
  lemma CompletesOnce(ss: seq<State>, es: seq<Action>, i: nat, j: nat)
    requires IsRun(ss, es) && i < j < |es| && es[i].Complete? && es[j].Complete?
    ensures es[i].h in ss[i].flight && es[j].h in ss[j].flight
    ensures ss[i].flight[es[i].h].id != ss[j].flight[es[j].h].id
  {
    assert StepAt(ss, es, i) && StepAt(ss, es, j);
    CompletedStays(ss, es, i + 1, j, ss[i].flight[es[i].h].id);
    RunInv(ss, es, j);
    PhaseOf(ss[j], es[j].h);
  }

  /** Request number id has been given back: no chain has it. */
  ghost predicate Gone(s: State, id: nat) {
    id < s.posted && forall h :: h in s.flight ==> s.flight[h].id != id
  }

  lemma {:induction false} GoneStays(ss: seq<State>, es: seq<Action>, i: nat, j: nat, id: nat)
    requires IsRun(ss, es) && i <= j < |ss| && Gone(ss[i], id)
    ensures Gone(ss[j], id)
  {
    if i < j {
      GoneStays(ss, es, i, j - 1, id);
      assert StepAt(ss, es, j - 1);
    }
  }

  lemma FinishBasics(s: State, h: nat, s': State)
    requires Wf(s) && FinishStep(s, h, s')
    ensures h in s.flight && s.flight[h].b !in s.busy
  {
  }

  lemma FinishedGone(s: State, h: nat, s': State)
    requires Inv(s) && FinishStep(s, h, s')
    ensures Gone(s', s.flight[h].id)
  {
    hide Inv;
    WfOf(s);
    PhaseOf(s, h);
    FinishFrame(s, h, s');
    hide FinishStep;
  }

  /** A request that its thread finishes has been completed by the device, its descriptors are in
      use, so that free_desc() does not panic, and it is finished once only. */
  lemma FinishesOnce(ss: seq<State>, es: seq<Action>, i: nat, j: nat)
    requires IsRun(ss, es) && i < j < |es| && es[i].Finish? && es[j].Finish?
    ensures es[i].h in ss[i].flight && es[j].h in ss[j].flight
    ensures ss[i].flight[es[i].h].id != ss[j].flight[es[j].h].id
    ensures ss[i].flight[es[i].h].id in ss[i].completed
  {
    hide Inv;
    hide FinishStep;
    assert StepAt(ss, es, i) && StepAt(ss, es, j);
    RunInv(ss, es, i);
    FinishBasics(ss[i], es[i].h, ss[i + 1]);
    RunInv(ss, es, j);
    FinishBasics(ss[j], es[j].h, ss[j + 1]);
    FinishSignalled(ss[i], es[i].h);
    FinishedGone(ss[i], es[i].h, ss[i + 1]);
    GoneStays(ss, es, i + 1, j, ss[i].flight[es[i].h].id);
  }

  /** Whenever the index is ahead of the device, the device can take a chain. */
  lemma FetchReady(s: State) returns (s': State)
    requires Inv(s) && s.devIdx != s.availIdx
    ensures FetchStep(s, s')
  {
    hide Ix;
    hide ChainsInv;
    FetchPosted(s);
    var h := s.avail[Ix(s.devIdx)];
    s' := s.(devIdx := Bump(s.devIdx), fetched := s.fetched + 1,
             flight := s.flight[h := s.flight[h].(phase := Taken)]);
  }

  /** The device can always follow a chain that it has taken. */
  lemma DeviceReady(s: State, h: nat) returns (s': State)
    requires Inv(s) && h in s.flight && s.flight[h].phase == Taken
    ensures CompleteStep(s, h, s')
  {
    assert ChainOk(s, h);
    var r := s.flight[h];
    var op := s.ops[h];
    s' := s.(
      disk := if op.write then s.disk[op.sector := s.bufs[r.b]] else s.disk,
      bufs := if op.write then s.bufs else s.bufs[r.b := s.disk[op.sector]],
      status := s.status[h := 0],
      used := s.used[Ix(s.usedIdx) := h],
      usedIdx := Bump(s.usedIdx),
      finished := s.finished + 1,
      completed := s.completed + {s.flight[h].id},
      flight := s.flight[h := s.flight[h].(phase := Used(s.finished))]);
  }

  // ---------------------------------------------------------------- the data of a request

  /** The same request, perhaps further on. */
  ghost predicate SameReq(r: Req, q: Req) { q == r.(phase := q.phase) }

  /** A request in flight was there before, or is new. */
  lemma StepReq(s: State, a: Action, s': State, h: nat)
    requires Inv(s) && Step(s, a, s') && h in s'.flight
    ensures a.Fill? || h in s.flight
    ensures h in s.flight ==> SameReq(s.flight[h], s'.flight[h])
    ensures h !in s.flight ==> s'.flight[h] == Req(s'.flight[h].d1, s'.flight[h].d2, a.b, a.header, s.posted, Filled)
    ensures a.Fill? ==> s'.bufs == s.bufs
  {
    hide Inv;
    hide Ix;
    hide Mark;
    hide Chain;
    hide Alloc3;
    if a.Fill? && h in s.flight {
      AloneOf(s, h);
    }
  }

  /** While a request is in flight, its own completion is the one step that can change its buffer,
      and that step moves the data in the direction that the request names. */
  lemma StepData(s: State, a: Action, s': State, h: nat)
    requires Inv(s) && Step(s, a, s') && h in s.flight && h in s'.flight
    ensures var r := s.flight[h];
            && r.b in s.bufs && r.header.sector in s.disk && r.b in s'.bufs && r.header.sector in s'.disk
            && (a == Complete(h) && r.header.write ==> s'.disk[r.header.sector] == s.bufs[r.b])
            && s'.bufs[r.b] == if a == Complete(h) && !r.header.write then s.disk[r.header.sector] else s.bufs[r.b]
    ensures !Moved(s, h) && Moved(s', h) ==> a == Complete(h)
    ensures a == Complete(h) ==> !Moved(s, h) && Moved(s', h)
    ensures Moved(s, h) ==> Moved(s', h)
  {
    hide Inv;
    hide Ix;
    ChainOf(s, h);
    StepPhase(s, a, s', h);
    hide Mark;
    hide Chain;
    hide Alloc3;
    match a
    case Complete(g) =>
      hide CompleteStep;
      CompleteServes(s, g, s');
      PhaseOf(s, h);
      assert g in s.flight by { CompleteFrame(s, g, s'); }
    case _ =>
  }

  /** The device has moved the data of request h. */
  ghost predicate Moved(s: State, h: nat) {
    h in s.flight && (s.flight[h].phase.Used? || s.flight[h].phase.Signalled?)
  }

  lemma StepPhase(s: State, a: Action, s': State, h: nat)
    requires Inv(s) && Step(s, a, s') && h in s.flight && h in s'.flight
    ensures !Moved(s, h) && Moved(s', h) ==> a == Complete(h)
    ensures a == Complete(h) ==> !Moved(s, h) && Moved(s', h)
    ensures Moved(s, h) ==> Moved(s', h)
  {
    hide Inv;
    hide Ix;
    hide Mark;
    hide Chain;
    hide Alloc3;
    match a
    case Fill(_, _) => AloneOf(s, h);
    case Fetch => FetchPosted(s);
    case Signal => SignalUsed(s);
    case Complete(g) =>
      CompleteFrame(s, g, s');
      hide CompleteStep;
    case _ =>
  }

  /** The contents of buffer b, and of a sector. */
  ghost function BufAt(s: State, b: nat): int { if b in s.bufs then s.bufs[b] else 0 }
  ghost function SectorAt(s: State, k: nat): int { if k in s.disk then s.disk[k] else 0 }

  /** Step f of the run submitted request r. */
  ghost predicate FilledAt(ss: seq<State>, es: seq<Action>, f: nat, h: nat, r: Req) {
    && |ss| == |es| + 1 && f < |es| && es[f] == Fill(r.b, r.header)
    && h in ss[f + 1].flight && SameReq(ss[f + 1].flight[h], r)
  }

  /** Step i of the run moved the data of request r, which was submitted at step f. */
  ghost predicate MovedAt(ss: seq<State>, es: seq<Action>, f: nat, i: nat, h: nat, r: Req) {
    && |ss| == |es| + 1 && f < i < |es| && es[i] == Complete(h) && h in ss[i].flight && SameReq(ss[i].flight[h], r)
    && (r.header.write ==> SectorAt(ss[i + 1], r.header.sector) == BufAt(ss[f], r.b))
  }

  /** What the buffer of a request holds, from its submission on: what it held then, until the one
      completion of the request; and from there on, for a read, what the sector held at the
      completion. */
  lemma {:induction false} Transfer(ss: seq<State>, es: seq<Action>, j: nat, h: nat) returns (f: nat, i: nat)
    requires IsRun(ss, es) && j < |ss| && h in ss[j].flight
    ensures f < j && FilledAt(ss, es, f, h, ss[j].flight[h])
    ensures Moved(ss[j], h) ==> i < j && MovedAt(ss, es, f, i, h, ss[j].flight[h])
    ensures BufAt(ss[j], ss[j].flight[h].b)
         == if Moved(ss[j], h) && !ss[j].flight[h].header.write then SectorAt(ss[i], ss[j].flight[h].header.sector)
            else BufAt(ss[f], ss[j].flight[h].b)
  {
    hide Step;
    hide Inv;
    if j == 0 {
      assert false;
    }
    RunInv(ss, es, j - 1);
    assert StepAt(ss, es, j - 1);
    StepReq(ss[j - 1], es[j - 1], ss[j], h);
    if h in ss[j - 1].flight {
      f, i := Transfer(ss, es, j - 1, h);
      StepData(ss[j - 1], es[j - 1], ss[j], h);
      if es[j - 1] == Complete(h) {
        i := j - 1;
      }
    } else {
      f, i := j - 1, 0;
    }
  }

  /** From submission to return: when virtio_disk_rw() finishes a read, its buffer holds what the
      sector held at the completion of that request; when it finishes a write, the sector received
      at its completion what the buffer held at the submission.  The completion is the only one of
      the request, by CompletesOnce. */
  lemma FinishServes(ss: seq<State>, es: seq<Action>, j: nat) returns (f: nat, i: nat)
    requires IsRun(ss, es) && j < |es| && es[j].Finish?
    ensures es[j].h in ss[j].flight && f < i < j
    ensures var h := es[j].h;
            var r := ss[j].flight[h];
            && FilledAt(ss, es, f, h, r) && MovedAt(ss, es, f, i, h, r)
            && BufAt(ss[j + 1], r.b) == if r.header.write then BufAt(ss[f], r.b) else SectorAt(ss[i], r.header.sector)
  {
    hide Inv;
    hide FinishStep;
    assert StepAt(ss, es, j);
    RunInv(ss, es, j);
    FinishBasics(ss[j], es[j].h, ss[j + 1]);
    FinishSignalled(ss[j], es[j].h);
    f, i := Transfer(ss, es, j, es[j].h);
    FinishBufs(ss[j], es[j].h, ss[j + 1]);
  }

  lemma FinishBufs(s: State, h: nat, s': State)
    requires Wf(s) && FinishStep(s, h, s')
    ensures s'.bufs == s.bufs
  {
    hide Mark;
  }
}
