/** When bget() panics for want of a buffer, in every interleaving. */
module BufferPanic {
  import opened BufferRings
  import opened BufferCache

  /** The buffers from number k on in a ring are referenced. */
  ghost predicate TailBusy(s: State, ring: seq<nat>, k: nat)
    requires Shape(s)
  {
    forall j :: k <= j < |ring| ==> ring[j] < |s.ids| && s.refcnt[ring[j]] > 0
  }

  /** What the inner loop of bget() has passed in a ring, it has found referenced. */
  ghost predicate BusyOk(s: State, rs: Rings, t: nat)
    requires Shape(s) && t < |s.threads|
  {
    var pc := s.threads[t].pc;
    pc.StealScan? ==>
      && pc.at < NBUCKETS
      && exists k :: 0 <= k <= |rs[pc.at]| && IsNode(s.ids, rs, pc.at, k, pc.cur) && TailBusy(s, rs[pc.at], k)
  }

  lemma InRing(s: State, rs: Rings, i: nat, j: nat)
    requires Inv(s, rs) && i < NBUCKETS && j < |rs[i]|
    ensures rs[i][j] < |s.ids| && Home(s.ids[rs[i][j]]) == i
  {
    assert Sorted(Bucket(s.ids), rs, i);
  }

  lemma StepFrame(s: State, u: nat, a: Action, s': State, t: nat)
    requires Shape(s) && Step(s, u, a, s') && t < |s.threads| && t != u
    ensures |s'.threads| == |s.threads| && s'.threads[t] == s.threads[t] && |s'.ids| == |s.ids|
  {
  }

  /** While another thread has the lock of bucket i no reference to a buffer in it is given up. */
  lemma RefsStay(s: State, u: nat, a: Action, s': State, rs: Rings, i: nat, b: nat)
    requires Inv(s, rs) && Step(s, u, a, s') && Shape(s') && i < NBUCKETS && s.lock[i].Some? && s.lock[i].value != u
    requires b < |s.ids| == |s'.ids| && Home(s.ids[b]) == i && s.refcnt[b] > 0
    ensures s'.refcnt[b] > 0
  {
    hide Inv;
    hide RefsOk;
    hide LocksOk;
    hide SleepLocksOk;
    hide HolderOf;
    hide Placed;
    OwnFacts(s, rs, u);
  }

  lemma BusyOther(s: State, u: nat, a: Action, s': State, rs: Rings, rs': Rings, t: nat)
    requires Inv(s, rs) && Step(s, u, a, s') && Inv(s', rs') && OthersKept(s, u, rs, rs')
    requires t < |s.threads| && t != u && BusyOk(s, rs, t)
    ensures t < |s'.threads| && BusyOk(s', rs', t)
  {
    hide Inv;
    hide LocksOk;
    hide RefsOk;
    hide SleepLocksOk;
    hide Placed;
    hide HolderOf;
    OwnFacts(s, rs, t);
    StepFrame(s, u, a, s', t);
    ShapeOf(s', rs');
    var pc := s.threads[t].pc;
    if pc.StealScan? {
      var k :| 0 <= k <= |rs[pc.at]| && IsNode(s.ids, rs, pc.at, k, pc.cur) && TailBusy(s, rs[pc.at], k);
      forall j | k <= j < |rs[pc.at]|
        ensures rs[pc.at][j] < |s'.ids| && s'.refcnt[rs[pc.at][j]] > 0
      {
        InRing(s, rs, pc.at, j);
        RefsStay(s, u, a, s', rs, pc.at, rs[pc.at][j]);
      }
      hide Step;
      assert IsNode(s'.ids, rs', pc.at, k, pc.cur) && TailBusy(s', rs'[pc.at], k);
    }
  }

  lemma ShapeOf(s: State, rs: Rings)
    requires Inv(s, rs)
    ensures Shape(s)
  {
  }

  /** The inner loop starts at the last buffer of a ring. */
  lemma BusyFirst(s: State, t: nat, a: Action, s': State, rs: Rings)
    requires Inv(s, rs) && Step(s, t, a, s') && Shape(s') && a.StealTest? && s'.threads[t].pc.StealScan?
    ensures BusyOk(s', rs, t)
  {
    hide Inv;
    ShapeOf(s, rs);
    var pc' := s'.threads[t].pc;
    RingStep(s, rs, pc'.at, |rs[pc'.at]|);
    assert IsNode(s'.ids, rs, pc'.at, |rs[pc'.at]|, pc'.cur) && TailBusy(s', rs[pc'.at], |rs[pc'.at]|);
  }

  lemma WalkFrame(s: State, t: nat, a: Action, s': State)
    requires Shape(s) && Step(s, t, a, s') && !a.StealTest? && s'.threads[t].pc.StealScan?
    ensures s.threads[t].pc.StealScan? && s'.ids == s.ids && s'.refcnt == s.refcnt
    ensures var pc, pc' := s.threads[t].pc, s'.threads[t].pc;
            && pc.at < NBUCKETS && pc.cur != Head(s, pc.at) && (pc.cur < |s.ids| ==> s.refcnt[pc.cur] > 0)
            && pc.cur < |s.links.prev| && pc'.at == pc.at && pc'.cur == s.links.prev[pc.cur]
  {
  }

  /** One turn of the inner loop goes on past a referenced buffer. */
  lemma BusyOwn(s: State, t: nat, a: Action, s': State, rs: Rings)
    requires Shape(s) && Shape(s') && t < |s.threads| == |s'.threads|
    requires Inv(s, rs) && Step(s, t, a, s') && BusyOk(s, rs, t) && s'.threads[t].pc.StealScan? && !a.StealTest?
    ensures BusyOk(s', rs, t)
  {
    hide Inv;
    ShapeOf(s, rs);
    WalkFrame(s, t, a, s');
    hide Step;
    var pc, pc' := s.threads[t].pc, s'.threads[t].pc;
    var k :| 0 <= k <= |rs[pc.at]| && IsNode(s.ids, rs, pc.at, k, pc.cur) && TailBusy(s, rs[pc.at], k);
    RingStep(s, rs, pc.at, k - 1);
    InRing(s, rs, pc.at, k - 1);
    assert IsNode(s'.ids, rs, pc.at, k - 1, pc'.cur) && TailBusy(s', rs[pc.at], k - 1);
  }

  lemma BusyStep(s: State, u: nat, a: Action, s': State, rs: Rings, rs': Rings, t: nat)
    requires Inv(s, rs) && Step(s, u, a, s') && Inv(s', rs') && OthersKept(s, u, rs, rs')
    requires a.StealTest? || (a.StealStep? && !s'.threads[u].pc.Found?) ==> rs' == rs
    requires t < |s.threads| && BusyOk(s, rs, t)
    ensures t < |s'.threads| && BusyOk(s', rs', t)
  {
    hide Inv;
    hide OthersKept;
    ShapeOf(s, rs);
    ShapeOf(s', rs');
    SameThreads(s, u, a, s');
    if t != u {
      BusyOther(s, u, a, s', rs, rs', t);
    } else if a.StealTest? && s'.threads[t].pc.StealScan? {
      BusyFirst(s, t, a, s', rs);
    } else if s'.threads[t].pc.StealScan? {
      BusyOwn(s, t, a, s', rs);
    }
  }

  lemma {:induction false} BusyRun(ss: seq<State>, es: seq<Event>, i: nat) returns (rs: Rings)
    requires IsRun(ss, es) && i < |ss|
    ensures Inv(ss[i], rs) && forall t :: 0 <= t < |ss[i].threads| ==> BusyOk(ss[i], rs, t)
  {
    hide Inv;
    hide Step;
    hide BusyOk;
    if i == 0 {
      InitInv(ss[0]);
      rs := BinitRings(|ss[0].ids|);
      forall t | 0 <= t < |ss[0].threads|
        ensures BusyOk(ss[0], rs, t)
      {
        BusyStart(ss[0], rs, t);
      }
    } else {
      var rs0 := BusyRun(ss, es, i - 1);
      assert StepAt(ss, es, i - 1);
      var s, u, a, s' := ss[i - 1], es[i - 1].t, es[i - 1].a, ss[i];
      rs := StepKeeps(s, u, a, s', rs0);
      ShapeOf(s', rs);
      SameThreads(s, u, a, s');
      forall t | 0 <= t < |s'.threads|
        ensures BusyOk(s', rs, t)
      {
        BusyStep(s, u, a, s', rs0, rs, t);
      }
    }
  }

  lemma BusyStart(s: State, rs: Rings, t: nat)
    requires Init(s) && t < |s.threads|
    ensures BusyOk(s, rs, t)
  {
  }

  lemma SameThreads(s: State, u: nat, a: Action, s': State)
    requires Shape(s) && Step(s, u, a, s')
    ensures |s'.threads| == |s.threads|
  {
  }

  // ---------------------------------------------------------------- the buckets that a call has passed

  /** Every buffer that belongs to bucket i is referenced. */
  ghost predicate AllBusy(s: State, i: nat) {
    Shape(s) && forall b :: 0 <= b < |s.ids| && Home(s.ids[b]) == i ==> s.refcnt[b] > 0
  }

  predicate InGet(pc: Pc) {
    || pc.Start? || pc.Scan? || pc.Steal? || pc.StealScan? || pc.Found? || pc.Insert? || pc.Wait? || pc.Panic?
  }

  /** How far bucket j is behind bucket h, cyclically. */
  function Behind(h: nat, j: nat): int { if j > h then j - h - 1 else j + NBUCKETS - h - 1 }

  /** The search for a victim has passed bucket j. */
  ghost predicate Passed(pc: Pc, j: nat) {
    || ((pc.Steal? || pc.StealScan?) && Behind(Home(pc.id), j) < Behind(Home(pc.id), pc.at))
    || (pc.Panic? && j != Home(pc.id))
  }

  /** A buffer on its way to another ring has a reference. */
  lemma TransitBusy(s: State, rs: Rings, b: nat, i: nat)
    requires Inv(s, rs) && b < |s.ids| && Home(s.ids[b]) == i && i < NBUCKETS && TailBusy(s, rs[i], 0)
    ensures s.refcnt[b] > 0
  {
    assert Placed(s, rs, b);
    if b in rs[i] {
      var j :| 0 <= j < |rs[i]| && rs[i][j] == b;
    } else {
      var t :| 0 <= t < |s.threads| && InTransit(s.threads[t].pc, b);
      RefSumBounds(s.threads, t, b);
    }
  }

  /** The inner loop leaves a bucket only when all of it is referenced. */
  lemma LeavesBusy(s: State, t: nat, a: Action, s': State, rs: Rings)
    requires Inv(s, rs) && Step(s, t, a, s') && a.StealStep? && s'.threads[t].pc.Steal? && BusyOk(s, rs, t)
    ensures s.threads[t].pc.StealScan? && AllBusy(s', s.threads[t].pc.at)
  {
    hide Inv;
    hide LocksOk;
    hide RefsOk;
    hide SleepLocksOk;
    hide Placed;
    hide HolderOf;
    OwnFacts(s, rs, t);
    var pc := s.threads[t].pc;
    var k :| 0 <= k <= |rs[pc.at]| && IsNode(s.ids, rs, pc.at, k, pc.cur) && TailBusy(s, rs[pc.at], k);
    if k > 0 {
      InRing(s, rs, pc.at, k - 1);
    }
    forall b | 0 <= b < |s'.ids| && Home(s'.ids[b]) == pc.at
      ensures s'.refcnt[b] > 0
    {
      TransitBusy(s, rs, b, pc.at);
    }
  }

  lemma GetPc(s: State, t: nat, a: Action, s': State)
    requires Shape(s) && Step(s, t, a, s') && t < |s'.threads| && InGet(s'.threads[t].pc)
    ensures var pc, pc' := s.threads[t].pc, s'.threads[t].pc;
            && (!InGet(pc) ==> a == CallGet(pc'.id) && pc'.Start?) && (InGet(pc) ==> pc'.id == pc.id)
            && (pc'.Steal? ==> (a.ScanStep? && pc.Scan? && pc'.at == GetIndex(pc.id.blockno + 1))
                               || (a.StealStep? && pc.StealScan? && pc'.at == GetIndex(pc.at + 1)))
            && (pc'.StealScan? ==> (pc.Steal? || pc.StealScan?) && pc'.at == pc.at)
            && (pc'.Panic? ==> pc.Steal? && pc.at == Home(pc.id))
  {
  }

  /** The next bucket in the cycle. */
  lemma BehindNext(h: nat, at: nat, j: nat)
    requires h < NBUCKETS && at < NBUCKETS && j < NBUCKETS
    ensures at != h && Behind(h, j) < Behind(h, GetIndex(at + 1)) ==> j == at || Behind(h, j) < Behind(h, at)
    ensures Behind(h, j) >= 0 && (j != h ==> Behind(h, j) < Behind(h, h))
  {
  }

  lemma FirstBucket(blockno: nat)
    ensures Behind(GetIndex(blockno), GetIndex(blockno + 1)) == 0
  {
  }

  /** A step of the call itself. */
  lemma GetOwn(s: State, t: nat, a: Action, s': State, rs: Rings, j: nat)
    requires Inv(s, rs) && Step(s, t, a, s') && Shape(s') && t < |s'.threads| && BusyOk(s, rs, t)
    requires InGet(s'.threads[t].pc) && j < NBUCKETS
    ensures Passed(s'.threads[t].pc, j) ==> Passed(s.threads[t].pc, j) || AllBusy(s', j)
  {
    hide Inv;
    hide AllBusy;
    hide BusyOk;
    OwnFacts(s, rs, t);
    var pc, pc' := s.threads[t].pc, s'.threads[t].pc;
    GetPc(s, t, a, s');
    if pc'.Steal? && a.StealStep? {
      LeavesBusy(s, t, a, s', rs);
    }
    hide Step;
    hide Behind;
    if InGet(pc) {
      FirstBucket(pc.id.blockno);
      BehindNext(Home(pc.id), if pc.Steal? || pc.StealScan? then pc.at else 0, j);
    }
  }

  /** A step of the call: it begins, or goes on for the same block; and a bucket that it passes has
      every buffer referenced. */
  lemma GetStep(s: State, u: nat, a: Action, s': State, rs: Rings, t: nat, j: nat)
    requires Inv(s, rs) && Step(s, u, a, s') && Shape(s') && t < |s.threads| == |s'.threads| && BusyOk(s, rs, t)
    requires InGet(s'.threads[t].pc) && j < NBUCKETS
    ensures !InGet(s.threads[t].pc) ==> u == t && a == CallGet(s'.threads[t].pc.id) && s'.threads[t].pc.Start?
    ensures InGet(s.threads[t].pc) ==> s'.threads[t].pc.id == s.threads[t].pc.id
    ensures Passed(s'.threads[t].pc, j) ==> Passed(s.threads[t].pc, j) || AllBusy(s', j)
  {
    hide Inv;
    hide AllBusy;
    hide BusyOk;
    hide Passed;
    ShapeOf(s, rs);
    if t != u {
      StepFrame(s, u, a, s', t);
    } else {
      GetOwn(s, t, a, s', rs, j);
      GetPc(s, t, a, s');
    }
    hide Step;
  }

  /** Thread t is inside one bget() for block id, called by step b, in the states after b up to n. */
  ghost predicate InCall(ss: seq<State>, es: seq<Event>, t: nat, id: Id, b: nat, n: nat) {
    && |ss| == |es| + 1 && b < n < |ss| && es[b] == Event(t, CallGet(id))
    && forall m :: b < m <= n ==> CallAt(ss[m], t, id)
  }

  ghost predicate CallAt(s: State, t: nat, id: Id) {
    t < |s.threads| && InGet(s.threads[t].pc) && s.threads[t].pc.id == id
  }

  /** Every buffer of bucket i was referenced in some state after b up to n. */
  ghost predicate WasBusy(ss: seq<State>, i: nat, b: nat, n: nat) {
    exists m :: b < m <= n && m < |ss| && AllBusy(ss[m], i)
  }

  /** While a call of bget() is under way, every bucket that its search has passed had all its buffers
      referenced at some moment of the call. */
  lemma {:induction false} PassedBusy(ss: seq<State>, es: seq<Event>, n: nat, t: nat) returns (b: nat)
    requires IsRun(ss, es) && n < |ss| && t < |ss[n].threads| && InGet(ss[n].threads[t].pc)
    ensures InCall(ss, es, t, ss[n].threads[t].pc.id, b, n)
    ensures forall j :: 0 <= j < NBUCKETS && Passed(ss[n].threads[t].pc, j) ==> WasBusy(ss, j, b, n)
    decreases n
  {
    hide Inv;
    hide Step;
    hide Passed;
    hide BusyOk;
    hide AllBusy;
    NotAtFirst(ss, es, n, t);
    var rs := BusyRun(ss, es, n - 1);
    var rs' := BusyRun(ss, es, n);
    assert StepAt(ss, es, n - 1);
    var s, s' := ss[n - 1], ss[n];
    SameThreads(s, es[n - 1].t, es[n - 1].a, s');
    ShapeOf(s', rs');
    GetStep(s, es[n - 1].t, es[n - 1].a, s', rs, t, 0);
    if !InGet(s.threads[t].pc) {
      b := n - 1;
      assert CallAt(ss[n], t, s'.threads[t].pc.id);
      NonePassed(s'.threads[t].pc);
    } else {
      b := PassedBusy(ss, es, n - 1, t);
      assert CallAt(ss[n], t, s.threads[t].pc.id);
      forall j | 0 <= j < NBUCKETS && Passed(s'.threads[t].pc, j)
        ensures WasBusy(ss, j, b, n)
      {
        GetStep(s, es[n - 1].t, es[n - 1].a, s', rs, t, j);
        if Passed(s.threads[t].pc, j) {
          var m :| b < m <= n - 1 && m < |ss| && AllBusy(ss[m], j);
          assert AllBusy(ss[m], j);
        } else {
          assert AllBusy(ss[n], j);
        }
      }
    }
  }

  lemma NonePassed(pc: Pc)
    requires pc.Start?
    ensures forall j :: 0 <= j < NBUCKETS ==> !Passed(pc, j)
  {
  }

  lemma NotAtFirst(ss: seq<State>, es: seq<Event>, n: nat, t: nat)
    requires IsRun(ss, es) && n < |ss| && t < |ss[n].threads| && InGet(ss[n].threads[t].pc)
    ensures n > 0
  {
  }

  /** bget() panics only if every other bucket than its own had all its buffers referenced, each at
      some moment of the call. */
  lemma PanicsOnlyBusy(ss: seq<State>, es: seq<Event>, n: nat, t: nat) returns (b: nat)
    requires IsRun(ss, es) && n < |ss| && t < |ss[n].threads| && ss[n].threads[t].pc.Panic?
    ensures InCall(ss, es, t, ss[n].threads[t].pc.id, b, n)
    ensures forall j :: 0 <= j < NBUCKETS && j != Home(ss[n].threads[t].pc.id) ==> WasBusy(ss, j, b, n)
  {
    hide IsRun;
    hide WasBusy;
    b := PassedBusy(ss, es, n, t);
    forall j | 0 <= j < NBUCKETS && j != Home(ss[n].threads[t].pc.id)
      ensures WasBusy(ss, j, b, n)
    {
      assert Passed(ss[n].threads[t].pc, j);
    }
  }
}
