/** Every interleaving of bget, brelse, bpin and bunpin (kernel/bio.c) by any number of
    threads.  A step is what a thread does between two points at which another thread
    could notice: one loop turn, one lock operation, or one critical section that touches
    nothing outside its lock. */
module BufferCache {
  import opened BufferRings
  import opened Options

  datatype Id = Id(dev: nat, blockno: nat)

  datatype Pc =
    | Idle
    | Start(id: Id)                                  // acquire(&lock[idx])
    | Scan(id: Id, cur: nat)                         // first loop, holding idx
    | Steal(id: Id, at: nat)                         // test of the outer loop, holding idx
    | StealScan(id: Id, at: nat, cur: nat)           // inner loop, holding idx and at
    | Found(id: Id, at: nat, b: nat)                 // victim unlinked and renamed, both held
    | Insert(id: Id, b: nat)                         // at released, idx held
    | Wait(id: Id, b: nat)                           // acquiresleep(&b->lock)
    | Panic(id: Id)                                  // "bget: no buffers", idx never released
    | Relse(b: nat)                                  // brelse after releasesleep
    | RelseLock(b: nat, i: nat)                      // index computed without a lock
    | PinLock(b: nat, i: nat)
    | UnpinLock(b: nat, i: nat)

  /** held: the buffers whose sleep lock the thread has, with the block it asked for. */
  datatype Thread = Thread(pc: Pc, held: map<nat, Id>)

  datatype State = State(
    ids: seq<Id>,                  // dev and blockno of each buffer
    refcnt: seq<nat>,
    locker: seq<Option<nat>>,      // holder of each buffer's sleep lock
    links: Links,
    lock: seq<Option<nat>>,        // holder of each bucket's spin lock
    threads: seq<Thread>,
    pins: seq<nat>)                // references the log owns through bpin

  datatype Action =
    | CallGet(id: Id) | LockHome | ScanStep | StealTest | StealStep | DropVictim | InsertStep | LockBuf
    | CallRelse(b: nat) | ReadIndex | RelseDone
    | CallPin(b: nat) | PinDone | CallUnpin(b: nat) | UnpinDone

  function Home(id: Id): nat { GetIndex(id.blockno) }

  function Bucket(ids: seq<Id>): (r: seq<nat>)
    ensures |r| == |ids| && forall b :: 0 <= b < |ids| ==> r[b] == Home(ids[b])
  {
    seq(|ids|, b requires 0 <= b < |ids| => Home(ids[b]))
  }

  function Head(s: State, i: nat): nat { |s.ids| + i }

  function To(s: State, t: nat, pc: Pc): State
    requires t < |s.threads|
  {
    s.(threads := s.threads[t := s.threads[t].(pc := pc)])
  }

  function Unlock(s: State, i: nat): State
    requires i < |s.lock|
  {
    s.(lock := s.lock[i := None])
  }

  function Acquire(s: State, i: nat, t: nat): State
    requires i < |s.lock|
  {
    s.(lock := s.lock[i := Some(t)])
  }

  predicate Shape(s: State) {
    && |s.refcnt| == |s.ids| && |s.locker| == |s.ids| && |s.pins| == |s.ids|
    && |s.lock| == NBUCKETS && s.links.Valid(|s.ids| + NBUCKETS)
    && (forall x :: 0 <= x < |s.links.next| ==> s.links.next[x] < |s.links.next|)
    && (forall x :: 0 <= x < |s.links.prev| ==> s.links.prev[x] < |s.links.prev|)
  }

  ghost predicate Step(s: State, t: nat, a: Action, s': State)
    requires Shape(s)
  {
    t < |s.threads| &&
    var pc := s.threads[t].pc;
    match a
    case CallGet(id) =>
      pc.Idle? && s' == To(s, t, Start(id))
    case LockHome =>
      && pc.Start? && s.lock[Home(pc.id)] == None
      && s' == To(Acquire(s, Home(pc.id), t), t, Scan(pc.id, s.links.next[Head(s, Home(pc.id))]))
    case ScanStep =>
      && pc.Scan? && pc.cur < |s.links.next|
      && s' == if pc.cur == Head(s, Home(pc.id)) then
                 To(s, t, Steal(pc.id, GetIndex(pc.id.blockno + 1)))
               else if pc.cur < |s.ids| && s.ids[pc.cur] == pc.id then
                 To(Unlock(s, Home(pc.id)), t, Wait(pc.id, pc.cur)).(refcnt := s.refcnt[pc.cur := s.refcnt[pc.cur] + 1])
               else
                 To(s, t, Scan(pc.id, s.links.next[pc.cur]))
    case StealTest =>
      && pc.Steal? && pc.at < NBUCKETS
      && if pc.at == Home(pc.id) then s' == To(s, t, Panic(pc.id))
         else
           && s.lock[pc.at] == None
           && s' == To(Acquire(s, pc.at, t), t, StealScan(pc.id, pc.at, s.links.prev[Head(s, pc.at)]))
    case StealStep =>
      && pc.StealScan? && pc.at < NBUCKETS && pc.cur < |s.links.next|
      && s' == if pc.cur == Head(s, pc.at) then
                 To(Unlock(s, pc.at), t, Steal(pc.id, GetIndex(pc.at + 1)))
               else if pc.cur < |s.ids| && s.refcnt[pc.cur] == 0 then
                 To(s, t, Found(pc.id, pc.at, pc.cur)).(
                   ids := s.ids[pc.cur := pc.id], refcnt := s.refcnt[pc.cur := 1], links := Unlink(s.links, pc.cur))
               else
                 To(s, t, StealScan(pc.id, pc.at, s.links.prev[pc.cur]))
    case DropVictim =>
      pc.Found? && pc.at < NBUCKETS && s' == To(Unlock(s, pc.at), t, Insert(pc.id, pc.b))
    case InsertStep =>
      && pc.Insert? && pc.b < |s.ids|
      && var links' := PushFront(s.links, Head(s, Home(pc.id)), pc.b);
      s' == To(Unlock(s, Home(pc.id)), t, Wait(pc.id, pc.b)).(links := links')
    case LockBuf =>
      && pc.Wait? && pc.b < |s.ids| && s.locker[pc.b] == None
      && s' == s.(threads := s.threads[t := Thread(Idle, s.threads[t].held[pc.b := pc.id])],
                  locker := s.locker[pc.b := Some(t)])
    case CallRelse(b) =>
      && pc.Idle? && b in s.threads[t].held && b < |s.ids|
      && s' == s.(threads := s.threads[t := Thread(Relse(b), s.threads[t].held - {b})], locker := s.locker[b := None])
    case ReadIndex =>
      && pc.Relse? && pc.b < |s.ids|
      && s' == To(s, t, RelseLock(pc.b, Home(s.ids[pc.b])))
    case RelseDone =>
      && pc.RelseLock? && pc.b < |s.ids| && pc.i < NBUCKETS && s.lock[pc.i] == None && s.refcnt[pc.b] > 0
      && s' == To(s, t, Idle).(
                 refcnt := s.refcnt[pc.b := s.refcnt[pc.b] - 1],
                 links := if s.refcnt[pc.b] == 1 then Relink(s, pc.b, pc.i) else s.links)
    case CallPin(b) =>
      && pc.Idle? && b in s.threads[t].held && b < |s.ids|
      && s' == To(s, t, PinLock(b, Home(s.ids[b])))
    case PinDone =>
      && pc.PinLock? && pc.b < |s.ids| && pc.i < NBUCKETS && s.lock[pc.i] == None
      && s' == To(s, t, Idle).(refcnt := s.refcnt[pc.b := s.refcnt[pc.b] + 1], pins := s.pins[pc.b := s.pins[pc.b] + 1])
    case CallUnpin(b) =>
      && pc.Idle? && b in s.threads[t].held && b < |s.ids| && s.pins[b] > 0
      && s' == To(s, t, UnpinLock(b, Home(s.ids[b]))).(pins := s.pins[b := s.pins[b] - 1])
    case UnpinDone =>
      && pc.UnpinLock? && pc.b < |s.ids| && pc.i < NBUCKETS && s.lock[pc.i] == None && s.refcnt[pc.b] > 0
      && s' == To(s, t, Idle).(refcnt := s.refcnt[pc.b := s.refcnt[pc.b] - 1])
  }

  /** brelse's move to the front: unlink, then relink behind the head of bucket i. */
  function Relink(s: State, b: nat, i: nat): Links
    requires Shape(s) && b < |s.ids| && i < NBUCKETS
  {
    PushFront(Unlink(s.links, b), Head(s, i), b)
  }

  // ---------------------------------------------------------------- references

  /** References to buffer b that a thread owns. */
  function PcRefs(pc: Pc, b: nat): nat {
    match pc
    case Found(_, _, c) => if b == c then 1 else 0
    case Insert(_, c) => if b == c then 1 else 0
    case Wait(_, c) => if b == c then 1 else 0
    case Relse(c) => if b == c then 1 else 0
    case RelseLock(c, _) => if b == c then 1 else 0
    case UnpinLock(c, _) => if b == c then 1 else 0
    case _ => 0
  }

  function Refs(th: Thread, b: nat): nat {
    PcRefs(th.pc, b) + if b in th.held then 1 else 0
  }

  function RefSum(ths: seq<Thread>, b: nat): nat {
    if ths == [] then 0 else Refs(ths[0], b) + RefSum(ths[1..], b)
  }

  lemma {:induction false} RefSumUpdate(ths: seq<Thread>, t: nat, th: Thread, b: nat)
    requires t < |ths|
    ensures RefSum(ths[t := th], b) == RefSum(ths, b) - Refs(ths[t], b) + Refs(th, b)
  {
    if t == 0 {
      assert ths[0 := th][1..] == ths[1..];
    } else {
      RefSumUpdate(ths[1..], t - 1, th, b);
      assert ths[t := th][1..] == ths[1..][t - 1 := th];
    }
  }

  lemma {:induction false} RefSumBounds(ths: seq<Thread>, t: nat, b: nat)
    requires t < |ths|
    ensures Refs(ths[t], b) <= RefSum(ths, b)
  {
    if t > 0 {
      RefSumBounds(ths[1..], t - 1, b);
    }
  }

  // ---------------------------------------------------------------- the invariant

  predicate Holds(pc: Pc, i: nat) {
    match pc
    case Scan(id, _) => i == Home(id)
    case Steal(id, _) => i == Home(id)
    case StealScan(id, at, _) => i == Home(id) || i == at
    case Found(id, at, _) => i == Home(id) || i == at
    case Insert(id, _) => i == Home(id)
    case Panic(id) => i == Home(id)
    case _ => false
  }

  /** The victim of a bget that has been unlinked and not yet linked again. */
  predicate InTransit(pc: Pc, b: nat) {
    (pc.Found? || pc.Insert?) && pc.b == b
  }

  /** The first k buffers of a ring are not the wanted block. */
  ghost predicate Misses(ids: seq<Id>, ring: seq<nat>, id: Id, k: int) {
    forall j :: 0 <= j < k && j < |ring| ==> ring[j] < |ids| && ids[ring[j]] != id
  }

  ghost predicate IsNode(ids: seq<Id>, rs: Rings, i: nat, k: nat, cur: nat)
    requires i < NBUCKETS
  {
    cur == At(|ids| + i, rs[i], k)
  }

  ghost predicate PcOk(ids: seq<Id>, rs: Rings, pc: Pc) {
    match pc
    case Scan(id, cur) =>
      exists k :: 1 <= k <= |rs[Home(id)]| + 1 && IsNode(ids, rs, Home(id), k, cur)
                  && Misses(ids, rs[Home(id)], id, k - 1)
    case Steal(id, at) => at < NBUCKETS && Misses(ids, rs[Home(id)], id, |rs[Home(id)]|)
    case StealScan(id, at, cur) =>
      && at < NBUCKETS && at != Home(id) && Misses(ids, rs[Home(id)], id, |rs[Home(id)]|)
      && exists k :: 0 <= k <= |rs[at]| && IsNode(ids, rs, at, k, cur)
    case Found(id, at, b) =>
      b < |ids| && ids[b] == id && b !in rs[Home(id)] && at < NBUCKETS && at != Home(id)
    case Insert(id, b) => b < |ids| && ids[b] == id && b !in rs[Home(id)]
    case Wait(id, b) => b < |ids| && ids[b] == id && b in rs[Home(id)]
    case Relse(b) => b < |ids| && b in rs[Home(ids[b])]
    case RelseLock(b, i) => b < |ids| && i == Home(ids[b]) && b in rs[i]
    case PinLock(b, i) => b < |ids| && i == Home(ids[b])
    case UnpinLock(b, i) => b < |ids| && i == Home(ids[b])
    case _ => true
  }

  ghost predicate ThreadOk(ids: seq<Id>, rs: Rings, th: Thread) {
    && PcOk(ids, rs, th.pc)
    && (forall b :: b in th.held ==> b < |ids| && ids[b] == th.held[b] && b in rs[Home(ids[b])])
    && (th.pc.PinLock? || th.pc.UnpinLock? ==> th.pc.b in th.held)
  }

  ghost predicate LocksOk(s: State)
    requires Shape(s)
  {
    && (forall i :: 0 <= i < NBUCKETS && s.lock[i].Some? ==>
          s.lock[i].value < |s.threads| && Holds(s.threads[s.lock[i].value].pc, i))
    && (forall t, i :: 0 <= t < |s.threads| && 0 <= i < NBUCKETS && Holds(s.threads[t].pc, i) ==> s.lock[i] == Some(t))
  }

  /** Thread t is the recorded holder of every sleep lock it has. */
  ghost predicate HolderOf(s: State, t: nat)
    requires Shape(s) && t < |s.threads|
  {
    forall b :: b in s.threads[t].held ==> b < |s.ids| && s.locker[b] == Some(t)
  }

  ghost predicate SleepLocksOk(s: State)
    requires Shape(s)
  {
    && (forall b :: 0 <= b < |s.ids| && s.locker[b].Some? ==>
          s.locker[b].value < |s.threads| && b in s.threads[s.locker[b].value].held)
    && (forall t :: 0 <= t < |s.threads| ==> HolderOf(s, t))
  }

  ghost predicate RefsOk(s: State)
    requires Shape(s)
  {
    forall b :: 0 <= b < |s.ids| ==> s.refcnt[b] == RefSum(s.threads, b) + s.pins[b]
  }

  /** Buffer b is in its bucket's ring, or in transit inside some thread's bget. */
  ghost predicate Placed(s: State, rs: Rings, b: nat)
    requires b < |s.ids|
  {
    b in rs[Home(s.ids[b])] || exists t :: 0 <= t < |s.threads| && InTransit(s.threads[t].pc, b)
  }

  /** No block of a real device is cached twice. */
  ghost predicate Unique(ids: seq<Id>) {
    forall b, c :: 0 <= b < |ids| && 0 <= c < |ids| && ids[b] == ids[c] && ids[b].dev >= 1 ==> b == c
  }

  ghost predicate Inv(s: State, rs: Rings) {
    && Shape(s)
    && RingsOk(s.links, Bucket(s.ids), rs)
    && (forall t :: 0 <= t < |s.threads| ==> ThreadOk(s.ids, rs, s.threads[t]))
    && LocksOk(s) && SleepLocksOk(s) && RefsOk(s)
    && (forall b :: 0 <= b < |s.ids| ==> Placed(s, rs, b))
    && Unique(s.ids)
  }

  /** The rings whose locks other threads have are as they were. */
  ghost predicate OthersKept(s: State, t: nat, rs: Rings, rs': Rings)
    requires Shape(s)
  {
    forall i :: 0 <= i < NBUCKETS && s.lock[i].Some? && s.lock[i].value != t ==> rs'[i] == rs[i]
  }

  // ---------------------------------------------------------------- frame lemmas

  /** Steps of thread t that rename no buffer and move none: everything about the other
      threads stays as it was. */
  lemma RefsAfter(s: State, s': State, t: nat)
    requires Shape(s) && Shape(s') && RefsOk(s) && t < |s.threads| && |s'.ids| == |s.ids|
    requires |s'.threads| == |s.threads| && s'.threads == s.threads[t := s'.threads[t]]
    requires forall b :: 0 <= b < |s.ids| ==>
               s'.refcnt[b] - s'.pins[b] - Refs(s'.threads[t], b) == s.refcnt[b] - s.pins[b] - Refs(s.threads[t], b)
    ensures RefsOk(s')
  {
    forall b | 0 <= b < |s'.ids|
      ensures s'.refcnt[b] == RefSum(s'.threads, b) + s'.pins[b]
    {
      RefSumUpdate(s.threads, t, s'.threads[t], b);
    }
  }

  lemma PlacedAfter(s: State, s': State, rs: Rings, t: nat)
    requires Shape(s) && Shape(s') && s'.ids == s.ids && t < |s.threads|
    requires |s'.threads| == |s.threads| && s'.threads == s.threads[t := s'.threads[t]]
    requires forall b :: 0 <= b < |s.ids| ==> Placed(s, rs, b)
    requires forall b :: InTransit(s.threads[t].pc, b) ==> InTransit(s'.threads[t].pc, b)
    ensures forall b :: 0 <= b < |s.ids| ==> Placed(s', rs, b)
  {
    forall b | 0 <= b < |s.ids|
      ensures Placed(s', rs, b)
    {
      assert Placed(s, rs, b);
      if b !in rs[Home(s.ids[b])] {
        var u :| 0 <= u < |s.threads| && InTransit(s.threads[u].pc, b);
        assert InTransit(s'.threads[u].pc, b);
      }
    }
  }

  /** Thread t gained or lost bucket locks, and took only free ones. */
  lemma LocksAfter(s: State, s': State, t: nat)
    requires Shape(s) && Shape(s') && LocksOk(s) && t < |s.threads|
    requires |s'.threads| == |s.threads| && s'.threads == s.threads[t := s'.threads[t]]
    requires forall i :: 0 <= i < NBUCKETS ==>
               s'.lock[i] == if Holds(s'.threads[t].pc, i) then Some(t)
                             else if Holds(s.threads[t].pc, i) then None else s.lock[i]
    requires forall i :: 0 <= i < NBUCKETS && Holds(s'.threads[t].pc, i) && !Holds(s.threads[t].pc, i) ==>
             s.lock[i] == None
    ensures LocksOk(s')
  {
    forall u, i | 0 <= u < |s'.threads| && 0 <= i < NBUCKETS && Holds(s'.threads[u].pc, i)
      ensures s'.lock[i] == Some(u)
    {
      assert u != t ==> s'.threads[u] == s.threads[u] && s.lock[i] == Some(u);
    }
    forall i | 0 <= i < NBUCKETS && s'.lock[i].Some?
      ensures s'.lock[i].value < |s'.threads| && Holds(s'.threads[s'.lock[i].value].pc, i)
    {
      assert s'.lock[i] != Some(t) ==> s.lock[i] == s'.lock[i];
    }
  }

  lemma SleepLocksAfter(s: State, s': State, t: nat)
    requires Shape(s) && Shape(s') && SleepLocksOk(s) && t < |s.threads| && |s'.ids| == |s.ids|
    requires |s'.threads| == |s.threads| && s'.threads == s.threads[t := s'.threads[t]]
    requires s'.threads[t].held == s.threads[t].held && s'.locker == s.locker
    ensures SleepLocksOk(s')
  {
    forall u | 0 <= u < |s'.threads|
      ensures HolderOf(s', u)
    {
      assert HolderOf(s, u) && s'.threads[u].held == s.threads[u].held;
    }
  }

  /** Thread t took or gave up the sleep lock of buffer b. */
  lemma SleepLockMoved(s: State, s': State, t: nat, b: nat)
    requires Shape(s) && Shape(s') && SleepLocksOk(s) && t < |s.threads| && |s'.ids| == |s.ids| && b < |s.ids|
    requires |s'.threads| == |s.threads| && s'.threads == s.threads[t := s'.threads[t]]
    requires forall c :: c != b ==> (c in s'.threads[t].held <==> c in s.threads[t].held)
    requires s.locker[b] == None || s.locker[b] == Some(t)
    requires s'.locker == s.locker[b := if b in s'.threads[t].held then Some(t) else None]
    ensures SleepLocksOk(s')
  {
    forall u | 0 <= u < |s'.threads|
      ensures HolderOf(s', u)
    {
      assert HolderOf(s, u) && HolderOf(s, t);
    }
  }

  /** A step that leaves names and rings alone keeps the invariant when its own thread,
      the locks and the counts are in order. */
  lemma QuietStep(s: State, s': State, rs: Rings, t: nat)
    requires Inv(s, rs) && Shape(s') && t < |s.threads|
    requires s'.ids == s.ids && s'.links == s.links
    requires |s'.threads| == |s.threads| && s'.threads == s.threads[t := s'.threads[t]]
    requires ThreadOk(s.ids, rs, s'.threads[t])
    requires LocksOk(s') && SleepLocksOk(s') && RefsOk(s')
    requires forall b :: InTransit(s.threads[t].pc, b) ==> InTransit(s'.threads[t].pc, b)
    ensures Inv(s', rs)
  {
    PlacedAfter(s, s', rs, t);
  }

  /** What the invariant says about thread t. */
  lemma OwnFacts(s: State, rs: Rings, t: nat)
    requires Inv(s, rs) && t < |s.threads|
    ensures Shape(s) && RefsOk(s) && LocksOk(s) && SleepLocksOk(s)
    ensures ThreadOk(s.ids, rs, s.threads[t]) && HolderOf(s, t)
    ensures forall i :: 0 <= i < NBUCKETS && Holds(s.threads[t].pc, i) ==> s.lock[i] == Some(t)
    ensures forall b :: 0 <= b < |s.ids| ==> Placed(s, rs, b)
  {
  }

  /** The parts of the invariant, put together. */
  lemma Assemble(s: State, rs: Rings)
    requires Shape(s) && RingsOk(s.links, Bucket(s.ids), rs) && LocksOk(s) && SleepLocksOk(s) && RefsOk(s)
    requires forall t :: 0 <= t < |s.threads| ==> ThreadOk(s.ids, rs, s.threads[t])
    requires (forall b :: 0 <= b < |s.ids| ==> Placed(s, rs, b)) && Unique(s.ids)
    ensures Inv(s, rs)
  {
  }

  // ---------------------------------------------------------------- steps that move nothing

  lemma CallSteps(s: State, t: nat, a: Action, s': State, rs: Rings)
    requires Inv(s, rs) && Step(s, t, a, s') && (a.CallGet? || a.ReadIndex? || a.CallPin?)
    ensures Inv(s', rs)
  {
    hide Inv;
    hide RefsOk;
    hide LocksOk;
    hide SleepLocksOk;
    hide HolderOf;
    hide Placed;
    OwnFacts(s, rs, t);
    RefsAfter(s, s', t);
    LocksAfter(s, s', t);
    SleepLocksAfter(s, s', t);
    QuietStep(s, s', rs, t);
  }

  lemma PinStep(s: State, t: nat, a: Action, s': State, rs: Rings)
    requires Inv(s, rs) && Step(s, t, a, s') && a.PinDone?
    ensures Inv(s', rs)
  {
    hide Inv;
    hide RefsOk;
    hide LocksOk;
    hide SleepLocksOk;
    hide HolderOf;
    hide Placed;
    OwnFacts(s, rs, t);
    RefsAfter(s, s', t);
    LocksAfter(s, s', t);
    SleepLocksAfter(s, s', t);
    QuietStep(s, s', rs, t);
  }

  lemma CallUnpinStep(s: State, t: nat, a: Action, s': State, rs: Rings)
    requires Inv(s, rs) && Step(s, t, a, s') && a.CallUnpin?
    ensures Inv(s', rs)
  {
    hide Inv;
    hide RefsOk;
    hide LocksOk;
    hide SleepLocksOk;
    hide HolderOf;
    hide Placed;
    OwnFacts(s, rs, t);
    RefsAfter(s, s', t);
    LocksAfter(s, s', t);
    SleepLocksAfter(s, s', t);
    QuietStep(s, s', rs, t);
  }

  lemma UnpinStep(s: State, t: nat, a: Action, s': State, rs: Rings)
    requires Inv(s, rs) && Step(s, t, a, s') && a.UnpinDone?
    ensures Inv(s', rs)
  {
    hide Inv;
    hide RefsOk;
    hide LocksOk;
    hide SleepLocksOk;
    hide HolderOf;
    hide Placed;
    OwnFacts(s, rs, t);
    RefsAfter(s, s', t);
    LocksAfter(s, s', t);
    SleepLocksAfter(s, s', t);
    QuietStep(s, s', rs, t);
  }

  lemma LockHomeThread(s: State, t: nat, a: Action, s': State, rs: Rings)
    requires Inv(s, rs) && Step(s, t, a, s') && a.LockHome?
    ensures ThreadOk(s.ids, rs, s'.threads[t])
  {
    hide Inv;
    hide RefsOk;
    hide LocksOk;
    hide SleepLocksOk;
    hide HolderOf;
    hide Placed;
    OwnFacts(s, rs, t);
    var i := Home(s.threads[t].pc.id);
    RingStep(s, rs, i, 0);
    assert IsNode(s.ids, rs, i, 1, s'.threads[t].pc.cur);
  }

  /** Nodes k and k + 1 of the ring of bucket i. */
  lemma RingStep(s: State, rs: Rings, i: nat, k: nat)
    requires Inv(s, rs) && i < NBUCKETS && k <= |rs[i]|
    ensures At(Head(s, i), rs[i], k) < |s.links.next| && At(Head(s, i), rs[i], k + 1) < |s.links.next|
    ensures s.links.next[At(Head(s, i), rs[i], k)] == At(Head(s, i), rs[i], k + 1)
    ensures s.links.prev[At(Head(s, i), rs[i], k + 1)] == At(Head(s, i), rs[i], k)
    ensures k < |rs[i]| ==> rs[i][k] < |s.ids|
    ensures 1 <= k ==> rs[i][k - 1] < |s.ids|
  {
    assert RingOk(s.links, |Bucket(s.ids)| + i, rs[i]) && Sorted(Bucket(s.ids), rs, i);
    hide Inv;
    assert Linked(s.links, Head(s, i), rs[i], k);
  }

  lemma LockHomeStep(s: State, t: nat, a: Action, s': State, rs: Rings)
    requires Inv(s, rs) && Step(s, t, a, s') && a.LockHome?
    ensures Inv(s', rs)
  {
    hide Inv;
    hide RefsOk;
    hide LocksOk;
    hide SleepLocksOk;
    hide HolderOf;
    hide Placed;
    OwnFacts(s, rs, t);
    LockHomeThread(s, t, a, s', rs);
    hide ThreadOk;
    hide PcOk;
    RefsAfter(s, s', t);
    LocksAfter(s, s', t);
    SleepLocksAfter(s, s', t);
    QuietStep(s, s', rs, t);
  }

  lemma ScanPc(s: State, t: nat, a: Action, s': State)
    requires Shape(s) && Step(s, t, a, s') && a.ScanStep?
    ensures t < |s.threads| == |s'.threads| && s.threads[t].pc.Scan? && s.threads[t].pc.cur < |s.links.next|
    ensures var pc := s.threads[t].pc;
            s'.threads[t] == s.threads[t].(pc :=
              if pc.cur == Head(s, Home(pc.id)) then Steal(pc.id, GetIndex(pc.id.blockno + 1))
              else if pc.cur < |s.ids| && s.ids[pc.cur] == pc.id then Wait(pc.id, pc.cur)
              else Scan(pc.id, s.links.next[pc.cur]))
  {
  }

  /** The thread's own state after a turn of the first loop. */
  lemma ScanThread(s: State, t: nat, a: Action, s': State, rs: Rings)
    requires Inv(s, rs) && Step(s, t, a, s') && a.ScanStep?
    ensures ThreadOk(s.ids, rs, s'.threads[t])
  {
    hide Inv;
    hide RefsOk;
    hide LocksOk;
    hide SleepLocksOk;
    hide HolderOf;
    hide Placed;
    OwnFacts(s, rs, t);
    ScanPc(s, t, a, s');
    hide Step;
    var pc := s.threads[t].pc;
    var i := Home(pc.id);
    var k :| 1 <= k <= |rs[i]| + 1 && IsNode(s.ids, rs, i, k, pc.cur) && Misses(s.ids, rs[i], pc.id, k - 1);
    RingStep(s, rs, i, k - 1);
    hide Shape;
    if k <= |rs[i]| {
      RingStep(s, rs, i, k);
    }
    if s'.threads[t].pc.Scan? {
      assert IsNode(s.ids, rs, i, k + 1, s'.threads[t].pc.cur);
      assert Misses(s.ids, rs[i], pc.id, k);
    }
  }

  lemma ScanStepKeeps(s: State, t: nat, a: Action, s': State, rs: Rings)
    requires Inv(s, rs) && Step(s, t, a, s') && a.ScanStep?
    ensures Inv(s', rs)
  {
    hide Inv;
    hide RefsOk;
    hide LocksOk;
    hide SleepLocksOk;
    hide HolderOf;
    hide Placed;
    OwnFacts(s, rs, t);
    ScanThread(s, t, a, s', rs);
    hide ThreadOk;
    hide PcOk;
    RefsAfter(s, s', t);
    LocksAfter(s, s', t);
    SleepLocksAfter(s, s', t);
    QuietStep(s, s', rs, t);
  }

  lemma StealTestThread(s: State, t: nat, a: Action, s': State, rs: Rings)
    requires Inv(s, rs) && Step(s, t, a, s') && a.StealTest?
    ensures ThreadOk(s.ids, rs, s'.threads[t])
  {
    hide Inv;
    hide RefsOk;
    hide LocksOk;
    hide SleepLocksOk;
    hide HolderOf;
    hide Placed;
    OwnFacts(s, rs, t);
    var pc := s.threads[t].pc;
    if pc.at != Home(pc.id) {
      RingStep(s, rs, pc.at, |rs[pc.at]|);
      assert IsNode(s.ids, rs, pc.at, |rs[pc.at]|, s'.threads[t].pc.cur);
    }
  }

  lemma StealTestStep(s: State, t: nat, a: Action, s': State, rs: Rings)
    requires Inv(s, rs) && Step(s, t, a, s') && a.StealTest?
    ensures Inv(s', rs)
  {
    hide Inv;
    hide RefsOk;
    hide LocksOk;
    hide SleepLocksOk;
    hide HolderOf;
    hide Placed;
    OwnFacts(s, rs, t);
    StealTestThread(s, t, a, s', rs);
    hide ThreadOk;
    hide PcOk;
    RefsAfter(s, s', t);
    LocksAfter(s, s', t);
    SleepLocksAfter(s, s', t);
    QuietStep(s, s', rs, t);
  }

  lemma StealWalkThread(s: State, t: nat, a: Action, s': State, rs: Rings)
    requires Inv(s, rs) && Step(s, t, a, s') && a.StealStep? && !s'.threads[t].pc.Found?
    ensures ThreadOk(s.ids, rs, s'.threads[t])
  {
    hide Inv;
    hide RefsOk;
    hide LocksOk;
    hide SleepLocksOk;
    hide HolderOf;
    hide Placed;
    OwnFacts(s, rs, t);
    var pc := s.threads[t].pc;
    var k :| 0 <= k <= |rs[pc.at]| && IsNode(s.ids, rs, pc.at, k, pc.cur);
    RingStep(s, rs, pc.at, k);
    if s'.threads[t].pc.StealScan? {
      RingStep(s, rs, pc.at, k - 1);
      assert IsNode(s.ids, rs, pc.at, k - 1, s'.threads[t].pc.cur);
    }
  }

  lemma StealWalkStep(s: State, t: nat, a: Action, s': State, rs: Rings)
    requires Inv(s, rs) && Step(s, t, a, s') && a.StealStep? && !s'.threads[t].pc.Found?
    ensures Inv(s', rs)
  {
    hide Inv;
    hide RefsOk;
    hide LocksOk;
    hide SleepLocksOk;
    hide HolderOf;
    hide Placed;
    OwnFacts(s, rs, t);
    StealWalkThread(s, t, a, s', rs);
    hide ThreadOk;
    hide PcOk;
    RefsAfter(s, s', t);
    LocksAfter(s, s', t);
    SleepLocksAfter(s, s', t);
    QuietStep(s, s', rs, t);
  }

  lemma DropVictimStep(s: State, t: nat, a: Action, s': State, rs: Rings)
    requires Inv(s, rs) && Step(s, t, a, s') && a.DropVictim?
    ensures Inv(s', rs)
  {
    hide Inv;
    hide RefsOk;
    hide LocksOk;
    hide SleepLocksOk;
    hide HolderOf;
    hide Placed;
    OwnFacts(s, rs, t);
    RefsAfter(s, s', t);
    LocksAfter(s, s', t);
    SleepLocksAfter(s, s', t);
    QuietStep(s, s', rs, t);
  }

  lemma LockBufStep(s: State, t: nat, a: Action, s': State, rs: Rings)
    requires Inv(s, rs) && Step(s, t, a, s') && a.LockBuf?
    ensures Inv(s', rs)
  {
    hide Inv;
    hide RefsOk;
    hide LocksOk;
    hide SleepLocksOk;
    hide Placed;
    OwnFacts(s, rs, t);
    RefsAfter(s, s', t);
    LocksAfter(s, s', t);
    SleepLockMoved(s, s', t, s.threads[t].pc.b);
    QuietStep(s, s', rs, t);
  }

  lemma CallRelseStep(s: State, t: nat, a: Action, s': State, rs: Rings)
    requires Inv(s, rs) && Step(s, t, a, s') && a.CallRelse?
    ensures Inv(s', rs)
  {
    hide Inv;
    hide RefsOk;
    hide LocksOk;
    hide SleepLocksOk;
    hide Placed;
    OwnFacts(s, rs, t);
    RefsAfter(s, s', t);
    LocksAfter(s, s', t);
    SleepLockMoved(s, s', t, a.b);
    QuietStep(s, s', rs, t);
  }

  // ---------------------------------------------------------------- steps that move a buffer

  /** Ring i and buffer b changed; a thread that neither holds lock i nor has a reference
      to b does not notice. */
  lemma Unnoticed(ids: seq<Id>, ids': seq<Id>, rs: Rings, rs': Rings, th: Thread, i: nat, b: nat)
    requires ThreadOk(ids, rs, th) && i < NBUCKETS && !Holds(th.pc, i)
    requires |ids'| == |ids| && (forall j :: 0 <= j < NBUCKETS && j != i ==> rs'[j] == rs[j])
    requires forall c :: c != b ==> (c in rs'[i] <==> c in rs[i])
    requires forall c :: 0 <= c < |ids| && c != b ==> ids'[c] == ids[c]
    requires || (ids' == ids && (b in rs[i] ==> b in rs'[i]))
             || (Refs(th, b) == 0 && forall j :: 0 <= j < NBUCKETS && j != i ==> b !in rs[j])
    ensures ThreadOk(ids', rs', th)
  {
    if th.pc.Scan? {
      var h := Home(th.pc.id);
      var k :| 1 <= k <= |rs[h]| + 1 && IsNode(ids, rs, h, k, th.pc.cur) && Misses(ids, rs[h], th.pc.id, k - 1);
      assert IsNode(ids', rs', h, k, th.pc.cur) && Misses(ids', rs'[h], th.pc.id, k - 1);
    } else if th.pc.StealScan? {
      var k :| 0 <= k <= |rs[th.pc.at]| && IsNode(ids, rs, th.pc.at, k, th.pc.cur);
      assert IsNode(ids', rs', th.pc.at, k, th.pc.cur);
    }
  }

  /** A victim has no reference from any thread. */
  lemma VictimIsFree(s: State, rs: Rings, b: nat, u: nat)
    requires Inv(s, rs) && b < |s.ids| && s.refcnt[b] == 0 && u < |s.threads|
    ensures Refs(s.threads[u], b) == 0 && s.pins[b] == 0
  {
    RefSumBounds(s.threads, u, b);
  }

  lemma StealRings(s: State, t: nat, a: Action, s': State, rs: Rings) returns (k: nat, rs': Rings)
    requires Inv(s, rs) && Step(s, t, a, s') && a.StealStep? && s'.threads[t].pc.Found?
    ensures var pc := s.threads[t].pc;
            && pc.at < NBUCKETS && k < |rs[pc.at]| && rs[pc.at][k] == pc.cur && pc.cur < |s.ids|
            && rs' == rs[pc.at := Remove(rs[pc.at], k)]
            && RingsOk(s'.links, Bucket(s'.ids), rs')
            && (forall c :: c != pc.cur ==> (c in rs'[pc.at] <==> c in rs[pc.at]))
            && (forall j :: 0 <= j < NBUCKETS && j != pc.at ==> pc.cur !in rs[j])
  {
    assert ThreadOk(s.ids, rs, s.threads[t]);
    var pc := s.threads[t].pc;
    var n :| 0 <= n <= |rs[pc.at]| && IsNode(s.ids, rs, pc.at, n, pc.cur);
    k := n - 1;
    rs' := rs[pc.at := Remove(rs[pc.at], k)];
    UnlinkRings(s.links, Bucket(s.ids), rs, pc.at, k, Home(pc.id));
    assert Bucket(s'.ids) == Bucket(s.ids)[pc.cur := Home(pc.id)];
    assert rs[pc.at] == rs[pc.at][..k] + [pc.cur] + rs[pc.at][k + 1..];
    forall j | 0 <= j < NBUCKETS && j != pc.at
      ensures pc.cur !in rs[j]
    {
      assert Sorted(Bucket(s.ids), rs, j) && Sorted(Bucket(s.ids), rs, pc.at);
    }
  }

  lemma OneHolder(s: State, t: nat, u: nat, i: nat)
    requires Shape(s) && LocksOk(s) && t < |s.threads| && u < |s.threads| && i < NBUCKETS
    requires Holds(s.threads[t].pc, i) && Holds(s.threads[u].pc, i)
    ensures t == u
  {
    assert s.lock[i] == Some(t) && s.lock[i] == Some(u);
  }

  /** While a bget looks for a victim, no buffer has the block it wants. */
  lemma NotCached(s: State, t: nat, rs: Rings)
    requires Inv(s, rs) && t < |s.threads| && s.threads[t].pc.StealScan?
    ensures forall c :: 0 <= c < |s.ids| ==> s.ids[c] != s.threads[t].pc.id
  {
    assert ThreadOk(s.ids, rs, s.threads[t]);
    var id := s.threads[t].pc.id;
    forall c | 0 <= c < |s.ids|
      ensures s.ids[c] != id
    {
      if s.ids[c] == id {
        assert Placed(s, rs, c);
        if c in rs[Home(id)] {
          assert false;
        } else {
          var u :| 0 <= u < |s.threads| && InTransit(s.threads[u].pc, c);
          assert ThreadOk(s.ids, rs, s.threads[u]) && s.threads[u].pc.id == id;
          OneHolder(s, t, u, Home(id));
          assert false;
        }
      }
    }
  }

  /** The renamed victim is the only buffer for its block. */
  lemma StealUnique(s: State, t: nat, rs: Rings, b: nat)
    requires Inv(s, rs) && t < |s.threads| && s.threads[t].pc.StealScan? && b < |s.ids|
    ensures Unique(s.ids[b := s.threads[t].pc.id])
  {
    NotCached(s, t, rs);
  }

  /** The other threads: none of them holds the victim's bucket or a reference to it. */
  lemma StealFoundOther(s: State, t: nat, a: Action, s': State, rs: Rings, k: nat, rs': Rings, u: nat)
    requires Inv(s, rs) && Step(s, t, a, s') && a.StealStep? && s'.threads[t].pc.Found? && u < |s.threads| && u != t
    requires var pc := s.threads[t].pc;
             && pc.at < NBUCKETS && k < |rs[pc.at]| && rs[pc.at][k] == pc.cur && pc.cur < |s.ids|
             && rs' == rs[pc.at := Remove(rs[pc.at], k)]
             && (forall c :: c != pc.cur ==> (c in rs'[pc.at] <==> c in rs[pc.at]))
             && (forall j :: 0 <= j < NBUCKETS && j != pc.at ==> pc.cur !in rs[j])
    ensures ThreadOk(s'.ids, rs', s'.threads[u])
  {
    hide Inv;
    hide RefsOk;
    hide LocksOk;
    hide SleepLocksOk;
    hide HolderOf;
    hide Placed;
    hide ThreadOk;
    OwnFacts(s, rs, t);
    OwnFacts(s, rs, u);
    var pc := s.threads[t].pc;
    VictimIsFree(s, rs, pc.cur, u);
    assert Holds(pc, pc.at) && s.lock[pc.at] == Some(t);
    Unnoticed(s.ids, s'.ids, rs, rs', s.threads[u], pc.at, pc.cur);
  }

  lemma StealFoundThreads(s: State, t: nat, a: Action, s': State, rs: Rings, k: nat, rs': Rings, u: nat)
    requires Inv(s, rs) && Step(s, t, a, s') && a.StealStep? && s'.threads[t].pc.Found? && u < |s.threads|
    requires var pc := s.threads[t].pc;
             && pc.at < NBUCKETS && k < |rs[pc.at]| && rs[pc.at][k] == pc.cur && pc.cur < |s.ids|
             && rs' == rs[pc.at := Remove(rs[pc.at], k)]
             && (forall c :: c != pc.cur ==> (c in rs'[pc.at] <==> c in rs[pc.at]))
             && (forall j :: 0 <= j < NBUCKETS && j != pc.at ==> pc.cur !in rs[j])
    ensures ThreadOk(s'.ids, rs', s'.threads[u])
  {
    hide RingsOk;
    hide Placed;
    hide RefsOk;
    if u != t {
      StealFoundOther(s, t, a, s', rs, k, rs', u);
    } else {
      VictimIsFree(s, rs, s.threads[t].pc.cur, t);
      assert ThreadOk(s.ids, rs, s.threads[t]);
    }
  }

  lemma MovedPlaced(s: State, t: nat, s': State, rs: Rings, rs': Rings, i: nat, b: nat)
    requires Shape(s) && Shape(s') && t < |s.threads| == |s'.threads| && i < NBUCKETS && b < |s.ids| == |s'.ids|
    requires forall c :: 0 <= c < |s.ids| ==> Placed(s, rs, c)
    requires forall c :: 0 <= c < |s.ids| && c != b ==> s'.ids[c] == s.ids[c]
    requires forall j :: 0 <= j < NBUCKETS && j != i ==> rs'[j] == rs[j]
    requires forall c :: c != b ==> (c in rs'[i] <==> c in rs[i])
    requires forall u, c :: 0 <= u < |s.threads| && InTransit(s.threads[u].pc, c) && c != b ==>
             InTransit(s'.threads[u].pc, c)
    requires Placed(s', rs', b)
    ensures forall c :: 0 <= c < |s'.ids| ==> Placed(s', rs', c)
  {
    forall c | 0 <= c < |s'.ids|
      ensures Placed(s', rs', c)
    {
      assert Placed(s, rs, c);
      if c != b && c !in rs[Home(s.ids[c])] {
        var u :| 0 <= u < |s.threads| && InTransit(s.threads[u].pc, c);
        assert InTransit(s'.threads[u].pc, c);
      }
    }
  }

  lemma StealLinks(s: State, t: nat, a: Action, s': State, rs: Rings)
    requires Inv(s, rs) && Step(s, t, a, s') && a.StealStep? && s'.threads[t].pc.Found?
    ensures Shape(s')
  {
    hide RingsOk;
    hide RefsOk;
    hide LocksOk;
    hide SleepLocksOk;
    hide ThreadOk;
    hide Placed;
    hide Unique;
  }

  lemma StealRefs(s: State, t: nat, a: Action, s': State, rs: Rings)
    requires Inv(s, rs) && Step(s, t, a, s') && a.StealStep? && s'.threads[t].pc.Found? && Shape(s')
    ensures RefsOk(s')
  {
    hide Inv;
    hide RefsOk;
    hide LocksOk;
    hide SleepLocksOk;
    hide HolderOf;
    hide Placed;
    OwnFacts(s, rs, t);
    VictimIsFree(s, rs, s.threads[t].pc.cur, t);
    hide ThreadOk;
    RefsAfter(s, s', t);
  }

  lemma StealFoundStep(s: State, t: nat, a: Action, s': State, rs: Rings) returns (rs': Rings)
    requires Inv(s, rs) && Step(s, t, a, s') && a.StealStep? && s'.threads[t].pc.Found?
    ensures Inv(s', rs') && OthersKept(s, t, rs, rs')
  {
    hide Inv;
    hide RefsOk;
    hide LocksOk;
    hide SleepLocksOk;
    hide HolderOf;
    hide RingsOk;
    hide ThreadOk;
    var k;
    k, rs' := StealRings(s, t, a, s', rs);
    OwnFacts(s, rs, t);
    StealLinks(s, t, a, s', rs);
    var pc := s.threads[t].pc;
    forall u | 0 <= u < |s'.threads|
      ensures ThreadOk(s'.ids, rs', s'.threads[u])
    {
      StealFoundThreads(s, t, a, s', rs, k, rs', u);
    }
    StealUnique(s, t, rs, pc.cur);
    hide Unique;
    StealRefs(s, t, a, s', rs);
    LocksAfter(s, s', t);
    SleepLocksAfter(s, s', t);
    assert InTransit(s'.threads[t].pc, pc.cur);
    MovedPlaced(s, t, s', rs, rs', pc.at, pc.cur);
    hide Placed;
    Assemble(s', rs');
  }

  // ---------------------------------------------------------------- linking it in

  lemma RingsOf(s: State, rs: Rings)
    requires Inv(s, rs)
    ensures RingsOk(s.links, Bucket(s.ids), rs) && Unique(s.ids)
  {
  }

  lemma InsertRings(s: State, t: nat, a: Action, s': State, rs: Rings) returns (rs': Rings)
    requires Inv(s, rs) && Step(s, t, a, s') && a.InsertStep?
    ensures var pc := s.threads[t].pc;
            && rs' == rs[Home(pc.id) := [pc.b] + rs[Home(pc.id)]]
            && RingsOk(s'.links, Bucket(s'.ids), rs')
  {
    hide Inv;
    hide RefsOk;
    hide LocksOk;
    hide SleepLocksOk;
    hide HolderOf;
    hide Placed;
    hide RingsOk;
    OwnFacts(s, rs, t);
    RingsOf(s, rs);
    var pc := s.threads[t].pc;
    PushRings(s.links, Bucket(s.ids), rs, pc.b);
    rs' := rs[Home(pc.id) := [pc.b] + rs[Home(pc.id)]];
  }

  lemma InsertThreads(s: State, t: nat, a: Action, s': State, rs: Rings, rs': Rings, u: nat)
    requires Inv(s, rs) && Step(s, t, a, s') && a.InsertStep? && u < |s.threads|
    requires var pc := s.threads[t].pc; rs' == rs[Home(pc.id) := [pc.b] + rs[Home(pc.id)]]
    ensures ThreadOk(s'.ids, rs', s'.threads[u])
  {
    hide Inv;
    hide RefsOk;
    hide LocksOk;
    hide SleepLocksOk;
    hide HolderOf;
    hide Placed;
    OwnFacts(s, rs, t);
    OwnFacts(s, rs, u);
    var pc := s.threads[t].pc;
    assert Holds(pc, Home(pc.id)) && s.lock[Home(pc.id)] == Some(t);
    Unnoticed(s.ids, s'.ids, rs, rs', s'.threads[u].(pc := if u == t then Idle else s.threads[u].pc),
              Home(pc.id), pc.b);
  }

  lemma InsertPlaced(s: State, t: nat, a: Action, s': State, rs: Rings, rs': Rings)
    requires Inv(s, rs) && Step(s, t, a, s') && a.InsertStep? && Shape(s')
    requires var pc := s.threads[t].pc; rs' == rs[Home(pc.id) := [pc.b] + rs[Home(pc.id)]]
    ensures forall b :: 0 <= b < |s'.ids| ==> Placed(s', rs', b)
  {
    hide Inv;
    hide RefsOk;
    hide LocksOk;
    hide SleepLocksOk;
    hide HolderOf;
    OwnFacts(s, rs, t);
    var pc := s.threads[t].pc;
    MovedPlaced(s, t, s', rs, rs', Home(pc.id), pc.b);
  }

  lemma InsertStepKeeps(s: State, t: nat, a: Action, s': State, rs: Rings) returns (rs': Rings)
    requires Inv(s, rs) && Step(s, t, a, s') && a.InsertStep?
    ensures Inv(s', rs') && OthersKept(s, t, rs, rs')
  {
    hide Inv;
    hide RefsOk;
    hide LocksOk;
    hide SleepLocksOk;
    hide HolderOf;
    hide RingsOk;
    hide ThreadOk;
    hide Unique;
    rs' := InsertRings(s, t, a, s', rs);
    OwnFacts(s, rs, t);
    RingsOf(s, rs);
    var pc := s.threads[t].pc;
    var i := Home(pc.id);
    forall u | 0 <= u < |s'.threads|
      ensures ThreadOk(s'.ids, rs', s'.threads[u])
    {
      InsertThreads(s, t, a, s', rs, rs', u);
    }
    RefsAfter(s, s', t);
    LocksAfter(s, s', t);
    SleepLocksAfter(s, s', t);
    InsertPlaced(s, t, a, s', rs, rs');
    hide Placed;
    Assemble(s', rs');
  }

  /** Moving buffer b of ring i to its front changes the order of that ring only. */
  lemma FrontRings(lk: Links, bucket: seq<nat>, rs: Rings, i: nat, b: nat) returns (rs': Rings)
    requires RingsOk(lk, bucket, rs) && i < NBUCKETS && b in rs[i]
    ensures b < |bucket| && lk.Valid(|bucket| + NBUCKETS) && lk.next[b] < |lk.next| && lk.prev[b] < |lk.next|
    ensures Unlink(lk, b).next[|bucket| + i] < |lk.next|
    ensures RingsOk(PushFront(Unlink(lk, b), |bucket| + i, b), bucket, rs') && b in rs'[i]
    ensures forall j :: 0 <= j < NBUCKETS && j != i ==> rs'[j] == rs[j]
    ensures forall c :: c != b ==> (c in rs'[i] <==> c in rs[i])
  {
    var k: nat :| k < |rs[i]| && rs[i][k] == b;
    rs' := RelinkRings(lk, bucket, rs, i, k);
    RemoveMembers(rs[i], k);
  }

  /** What brelse() finds when it has the lock, and what it does to the pointers. */
  lemma RelseFacts(s: State, t: nat, a: Action, s': State, rs: Rings)
    requires Inv(s, rs) && Step(s, t, a, s') && a.RelseDone?
    ensures Shape(s) && t < |s.threads| && s.threads[t].pc.RelseLock?
    ensures var pc := s.threads[t].pc;
            && pc.b < |s.ids| && pc.i < NBUCKETS && pc.i == Home(s.ids[pc.b]) && pc.b in rs[pc.i]
            && RingsOk(s.links, Bucket(s.ids), rs) && s'.ids == s.ids
            && s'.links == if s.refcnt[pc.b] == 1 then Relink(s, pc.b, pc.i) else s.links
  {
    assert ThreadOk(s.ids, rs, s.threads[t]);
  }

  lemma RelseRings(s: State, t: nat, a: Action, s': State, rs: Rings) returns (rs': Rings)
    requires Inv(s, rs) && Step(s, t, a, s') && a.RelseDone?
    ensures var pc := s.threads[t].pc;
            && pc.i == Home(s.ids[pc.b]) && pc.b in rs[pc.i] && pc.b in rs'[pc.i]
            && (forall j :: 0 <= j < NBUCKETS && j != pc.i ==> rs'[j] == rs[j])
            && (forall c :: c != pc.b ==> (c in rs'[pc.i] <==> c in rs[pc.i]))
            && RingsOk(s'.links, Bucket(s'.ids), rs')
  {
    hide Inv;
    hide Step;
    hide RingsOk;
    RelseFacts(s, t, a, s', rs);
    var pc := s.threads[t].pc;
    if s.refcnt[pc.b] == 1 {
      rs' := FrontRings(s.links, Bucket(s.ids), rs, pc.i, pc.b);
    } else {
      rs' := rs;
    }
  }

  lemma RelseDoneThread(s: State, t: nat, a: Action, s': State, rs: Rings, rs': Rings, u: nat)
    requires Inv(s, rs) && Step(s, t, a, s') && a.RelseDone? && u < |s.threads|
    requires var pc := s.threads[t].pc;
             && pc.i == Home(s.ids[pc.b]) && pc.b in rs[pc.i] && pc.b in rs'[pc.i]
             && (forall j :: 0 <= j < NBUCKETS && j != pc.i ==> rs'[j] == rs[j])
             && (forall c :: c != pc.b ==> (c in rs'[pc.i] <==> c in rs[pc.i]))
    ensures ThreadOk(s'.ids, rs', s'.threads[u])
  {
    var pc := s.threads[t].pc;
    hide RingsOk;
    hide Placed;
    hide RefsOk;
    assert ThreadOk(s.ids, rs, s.threads[u]);
    assert !Holds(s.threads[u].pc, pc.i);
    Unnoticed(s.ids, s'.ids, rs, rs', s'.threads[u], pc.i, pc.b);
  }

  lemma RelseDoneStep(s: State, t: nat, a: Action, s': State, rs: Rings) returns (rs': Rings)
    requires Inv(s, rs) && Step(s, t, a, s') && a.RelseDone?
    ensures Inv(s', rs') && OthersKept(s, t, rs, rs')
  {
    hide Inv;
    hide RefsOk;
    hide LocksOk;
    hide SleepLocksOk;
    hide HolderOf;
    hide RingsOk;
    hide ThreadOk;
    hide Unique;
    rs' := RelseRings(s, t, a, s', rs);
    OwnFacts(s, rs, t);
    RingsOf(s, rs);
    var pc := s.threads[t].pc;
    forall u | 0 <= u < |s'.threads|
      ensures ThreadOk(s'.ids, rs', s'.threads[u])
    {
      RelseDoneThread(s, t, a, s', rs, rs', u);
    }
    RefsAfter(s, s', t);
    LocksAfter(s, s', t);
    SleepLocksAfter(s, s', t);
    MovedPlaced(s, t, s', rs, rs', pc.i, pc.b);
    hide Placed;
    Assemble(s', rs');
  }

  // ---------------------------------------------------------------- every step, every run

  /** Every step of every thread keeps the invariant. */
  lemma StepKeeps(s: State, t: nat, a: Action, s': State, rs: Rings) returns (rs': Rings)
    requires Inv(s, rs) && Step(s, t, a, s')
    ensures Inv(s', rs') && OthersKept(s, t, rs, rs')
    ensures a.StealTest? || (a.StealStep? && !s'.threads[t].pc.Found?) ==> rs' == rs
  {
    hide Inv;
    hide RingsOk;
    rs' := rs;
    match a
    case LockHome => LockHomeStep(s, t, a, s', rs);
    case ScanStep => ScanStepKeeps(s, t, a, s', rs);
    case StealTest => StealTestStep(s, t, a, s', rs);
    case StealStep =>
      if s'.threads[t].pc.Found? {
        rs' := StealFoundStep(s, t, a, s', rs);
      } else {
        StealWalkStep(s, t, a, s', rs);
      }
    case DropVictim => DropVictimStep(s, t, a, s', rs);
    case InsertStep => rs' := InsertStepKeeps(s, t, a, s', rs);
    case LockBuf => LockBufStep(s, t, a, s', rs);
    case CallRelse(_) => CallRelseStep(s, t, a, s', rs);
    case RelseDone => rs' := RelseDoneStep(s, t, a, s', rs);
    case PinDone => PinStep(s, t, a, s', rs);
    case CallUnpin(_) => CallUnpinStep(s, t, a, s', rs);
    case UnpinDone => UnpinStep(s, t, a, s', rs);
    case _ => CallSteps(s, t, a, s', rs);
  }

  /** After binit(): all buffers are (dev 0, block 0) in bucket 0, nothing is referenced. */
  ghost predicate Init(s: State) {
    && Shape(s) && s.links == BinitLinks(|s.ids|, |s.ids|)
    && (forall b :: 0 <= b < |s.ids| ==>
          s.ids[b] == Id(0, 0) && s.refcnt[b] == 0 && s.pins[b] == 0 && s.locker[b] == None)
    && (forall i :: 0 <= i < NBUCKETS ==> s.lock[i] == None)
    && (forall t :: 0 <= t < |s.threads| ==> s.threads[t] == Thread(Idle, map[]))
  }

  lemma {:induction false} NoRefs(ths: seq<Thread>, b: nat)
    requires forall t :: 0 <= t < |ths| ==> ths[t] == Thread(Idle, map[])
    ensures RefSum(ths, b) == 0
  {
    if ths != [] {
      assert ths[0] == Thread(Idle, map[]);
      NoRefs(ths[1..], b);
    }
  }

  lemma InitInv(s: State)
    requires Init(s)
    ensures Inv(s, BinitRings(|s.ids|))
  {
    var n := |s.ids|;
    BinitOk(n, n);
    assert Bucket(s.ids) == AllZero(n);
    forall b | 0 <= b < n
      ensures RefSum(s.threads, b) == 0 && Placed(s, BinitRings(n), b)
    {
      NoRefs(s.threads, b);
      assert BinitRings(n)[0][n - 1 - b] == b;
    }
  }

  datatype Event = Event(t: nat, a: Action)

  ghost predicate StepAt(ss: seq<State>, es: seq<Event>, i: nat)
    requires i < |es| && |ss| == |es| + 1
  {
    Shape(ss[i]) && Step(ss[i], es[i].t, es[i].a, ss[i + 1])
  }

  ghost predicate IsRun(ss: seq<State>, es: seq<Event>) {
    && |ss| == |es| + 1 && Init(ss[0])
    && forall i :: 0 <= i < |es| ==> StepAt(ss, es, i)
  }

  lemma {:induction false} RunInv(ss: seq<State>, es: seq<Event>, i: nat) returns (rs: Rings)
    requires IsRun(ss, es) && i < |ss|
    ensures Inv(ss[i], rs)
  {
    if i == 0 {
      InitInv(ss[0]);
      rs := BinitRings(|ss[0].ids|);
    } else {
      var rs0 := RunInv(ss, es, i - 1);
      assert StepAt(ss, es, i - 1);
      rs := StepKeeps(ss[i - 1], es[i - 1].t, es[i - 1].a, ss[i], rs0);
    }
  }

  /** Each buffer is in exactly one well-formed ring, that of its block's bucket, or in
      transit inside exactly one bget, never both. */
  lemma ExactlyOnePlace(ss: seq<State>, es: seq<Event>, i: nat, b: nat) returns (rs: Rings)
    requires IsRun(ss, es) && i < |ss| && b < |ss[i].ids|
    ensures var s := ss[i];
            && RingsOk(s.links, Bucket(s.ids), rs)
            && (forall j :: 0 <= j < NBUCKETS && b in rs[j] ==> j == Home(s.ids[b]))
            && (b in rs[Home(s.ids[b])] <==> forall t :: 0 <= t < |s.threads| ==> !InTransit(s.threads[t].pc, b))
            && (forall t, u :: InTransitAt(s, t, b) && InTransitAt(s, u, b) ==> t == u)
  {
    rs := RunInv(ss, es, i);
    var s := ss[i];
    forall j | 0 <= j < NBUCKETS && b in rs[j]
      ensures j == Home(s.ids[b])
    {
      assert Sorted(Bucket(s.ids), rs, j);
    }
    assert Placed(s, rs, b);
    assert forall t :: 0 <= t < |s.threads| ==> ThreadOk(s.ids, rs, s.threads[t]);
    forall t, u | InTransitAt(s, t, b) && InTransitAt(s, u, b)
      ensures t == u
    {
      OneHolder(s, t, u, Home(s.ids[b]));
    }
  }

  ghost predicate InTransitAt(s: State, t: int, b: nat) {
    0 <= t < |s.threads| && InTransit(s.threads[t].pc, b)
  }

  /** No two buffers cache the same block; a locked buffer has one holder and stays the
      block that the holder asked for; and the bucket index that brelse, bpin and bunpin
      compute without a lock is still right when they take the lock, with a positive
      reference count to decrement. */
  lemma CacheSafety(ss: seq<State>, es: seq<Event>, i: nat, t: nat)
    requires IsRun(ss, es) && i < |ss| && t < |ss[i].threads|
    ensures var s, th := ss[i], ss[i].threads[t];
            && Unique(s.ids)
            && (forall b :: b in th.held ==> b < |s.ids| && s.ids[b] == th.held[b])
            && (forall u, b :: 0 <= u < |s.threads| && b in th.held && b in s.threads[u].held ==> t == u)
            && (th.pc.RelseLock? || th.pc.PinLock? || th.pc.UnpinLock? ==>
                  Shape(s) && th.pc.b < |s.ids| && th.pc.i == Home(s.ids[th.pc.b]) && s.refcnt[th.pc.b] > 0)
  {
    hide IsRun;
    hide Inv;
    hide LocksOk;
    hide SleepLocksOk;
    hide Placed;
    var rs := RunInv(ss, es, i);
    var s, th := ss[i], ss[i].threads[t];
    RingsOf(s, rs);
    hide RingsOk;
    OwnFacts(s, rs, t);
    forall u, b | 0 <= u < |s.threads| && b in th.held && b in s.threads[u].held
      ensures t == u
    {
      OwnFacts(s, rs, u);
    }
    if th.pc.RelseLock? || th.pc.PinLock? || th.pc.UnpinLock? {
      RefSumBounds(s.threads, t, th.pc.b);
    }
  }

  lemma LockedStep(s: State, u: nat, a: Action, s': State, t: nat, b: nat, id: Id)
    requires Shape(s) && Step(s, u, a, s') && t < |s.threads| && b in s.threads[t].held && s.threads[t].held[b] == id
    requires u == t ==> a != CallRelse(b) && !(a.LockBuf? && s.threads[t].pc.Wait? && s.threads[t].pc.b == b)
    ensures t < |s'.threads| && b in s'.threads[t].held && s'.threads[t].held[b] == id
  {
  }

  lemma LockedStart(s: State, t: nat, a: Action, s': State)
    requires Shape(s) && Step(s, t, a, s') && a.LockBuf?
    ensures t < |s.threads| && s.threads[t].pc.Wait? && t < |s'.threads| && s'.threads[t].pc.Idle?
    ensures var pc := s.threads[t].pc; pc.b in s'.threads[t].held && s'.threads[t].held[pc.b] == pc.id
  {
  }

  /** A thread that waits for a buffer's sleep lock does not have it. */
  lemma NotTwice(s: State, rs: Rings, t: nat, a: Action, s': State)
    requires Inv(s, rs) && Step(s, t, a, s') && a.LockBuf?
    ensures s.threads[t].pc.Wait? && s.threads[t].pc.b !in s.threads[t].held
  {
    hide Inv;
    OwnFacts(s, rs, t);
  }

  /** What bget() returned stays so until brelse(): from the step in which it gets the sleep lock the
      thread has that buffer, and the buffer is the block that it asked for. */
  lemma {:induction false} HeldUntilRelse(ss: seq<State>, es: seq<Event>, j: nat, i: nat)
    requires IsRun(ss, es) && j < i < |ss| && es[j].a.LockBuf?
    requires es[j].t < |ss[j].threads| && ss[j].threads[es[j].t].pc.Wait?
    requires var t, b := es[j].t, ss[j].threads[es[j].t].pc.b;
             forall k :: j < k < i ==> es[k] != Event(t, CallRelse(b))
    ensures var t, pc := es[j].t, ss[j].threads[es[j].t].pc;
            && t < |ss[i].threads| && pc.b in ss[i].threads[t].held && ss[i].threads[t].held[pc.b] == pc.id
            && pc.b < |ss[i].ids| && ss[i].ids[pc.b] == pc.id
    decreases i
  {
    hide Step;
    hide Inv;
    hide Init;
    var t, pc := es[j].t, ss[j].threads[es[j].t].pc;
    assert StepAt(ss, es, i - 1);
    if i == j + 1 {
      LockedStart(ss[j], t, es[j].a, ss[i]);
    } else {
      HeldUntilRelse(ss, es, j, i - 1);
      if es[i - 1].t == t && es[i - 1].a.LockBuf? {
        var rs := RunInv(ss, es, i - 1);
        NotTwice(ss[i - 1], rs, t, es[i - 1].a, ss[i]);
      }
      LockedStep(ss[i - 1], es[i - 1].t, es[i - 1].a, ss[i], t, pc.b, pc.id);
    }
    CacheSafety(ss, es, i, t);
  }

  /** A buffer that bget recycles is referenced by no thread and pinned by no transaction,
      and the block it is recycled for was not cached anywhere. */
  lemma RecyclesOnlyFree(ss: seq<State>, es: seq<Event>, i: nat, u: nat)
    requires IsRun(ss, es) && i < |es| && u < |ss[i].threads|
    requires es[i].t < |ss[i].threads| && es[i].t < |ss[i + 1].threads|
    requires es[i].a.StealStep? && ss[i + 1].threads[es[i].t].pc.Found?
    ensures ss[i].threads[es[i].t].pc.StealScan?
    ensures var s, pc := ss[i], ss[i].threads[es[i].t].pc;
            && Shape(s) && pc.cur < |s.ids| && Refs(s.threads[u], pc.cur) == 0 && s.pins[pc.cur] == 0
            && ss[i + 1].ids == s.ids[pc.cur := pc.id]
            && (forall c :: 0 <= c < |s.ids| ==> s.ids[c] != pc.id)
  {
    var rs := RunInv(ss, es, i);
    assert StepAt(ss, es, i);
    VictimIsFree(ss[i], rs, ss[i].threads[es[i].t].pc.cur, u);
    NotCached(ss[i], es[i].t, rs);
  }
}
