/** sleep() and wakeup() (kernel/proc.c) with any number of processes, spin locks and
    channels, in every interleaving, and the sleep locks of kernel/sleeplock.c as clients.

    Each channel belongs to a spin lock and stands for a condition that is examined and
    changed only under that lock, as all users of sleep() do: sleep locks, pipes (two
    channels, one lock), the log, the disk driver, and wait() (a channel per parent). */
module SleepWakeup {
  import opened Options

  datatype Sched = SLEEPING | RUNNABLE | RUNNING
  datatype Owner = Self | Scheduler

  datatype Pc =
    | Out                                   // no spin lock held
    | Want(l: nat)                          // spinning in acquire(lk)
    | Crit(l: nat, owes: set<nat>, woke: set<nat>)
                                            // holding lk; channels made true and not yet woken;
                                            // channels woken since lk was acquired
    | Waking(l: nat, owes: set<nat>, woke: set<nat>, r: nat, i: nat)
                                            // in wakeup(r), about to look at process i
    | Sleep1(l: nat, r: nat)                // condition was false, in sleep(): wants p->lock
    | Sleep2(l: nat, r: nat)                // holds lk and p->lock
    | Sleep3(l: nat, r: nat)                // lk released, p->lock held
    | Sleep4(l: nat, r: nat)                // chan and SLEEPING set, about to switch away
    | Away(l: nat, r: nat)                  // switched away
    | Resumed(l: nat, r: nat)               // running again, p->lock handed over by the scheduler

  /** mutexes: the sleep locks the process has; lock: who has its p->lock, if anyone has
      it for longer than one look at the process. */
  datatype Proc = Proc(pc: Pc, state: Sched, chan: Option<nat>, lock: Option<Owner>, mutexes: set<nat>)

  /** A sleep lock's condition is that it is not locked; other clients set it freely. */
  datatype Chan = Chan(l: nat, sleeplock: bool, cond: bool)

  datatype State = State(procs: seq<Proc>, locks: seq<Option<nat>>, chans: seq<Chan>)

  datatype Action =
    | Enter(l: nat) | Acquire | Leave
    | Take(r: nat) | Give(r: nat)           // acquiresleep / releasesleep change locked
    | SetTrue(r: nat) | SetFalse(r: nat)    // any other client
    | StartWake(r: nat) | WakeNext
    | StartSleep(r: nat) | LockSelf | DropLk | MarkSleeping | Switch | Retidy
    | SchedRelease | SchedRun | Kill

  function Put(s: State, p: nat, q: Proc): State
    requires p < |s.procs|
  {
    s.(procs := s.procs[p := q])
  }

  function SetPc(s: State, p: nat, pc: Pc): State
    requires p < |s.procs|
  {
    Put(s, p, s.procs[p].(pc := pc))
  }

  function SetLk(s: State, l: nat, h: Option<nat>): State
    requires l < |s.locks|
  {
    s.(locks := s.locks[l := h])
  }

  function SetCond(s: State, r: nat, c: bool): State
    requires r < |s.chans|
  {
    s.(chans := s.chans[r := s.chans[r].(cond := c)])
  }

  /** Channel r belongs to the lock that a process in Crit holds. */
  predicate Mine(s: State, pc: Pc, r: nat) {
    pc.Crit? && r < |s.chans| && s.chans[r].l == pc.l
  }

  function Owing(pc: Pc, r: nat): Pc
    requires pc.Crit?
  {
    Crit(pc.l, if r in pc.woke then pc.owes else pc.owes + {r}, pc.woke)
  }

  /** One step of process p (for the last three actions: of a scheduler or of a killer,
      acting on p).  A client must deliver the wakeups it owes before it lets go of the
      lock, by release() or by sleep(). */
  ghost predicate Step(s: State, p: nat, a: Action, s': State) {
    p < |s.procs| &&
    var q := s.procs[p];
    match a
    case Enter(l) => q.pc.Out? && l < |s.locks| && s' == SetPc(s, p, Want(l))
    case Acquire =>
      && q.pc.Want? && q.pc.l < |s.locks| && s.locks[q.pc.l] == None
      && s' == SetLk(SetPc(s, p, Crit(q.pc.l, {}, {})), q.pc.l, Some(p))
    case Leave =>
      && q.pc.Crit? && q.pc.l < |s.locks| && q.pc.owes == {}
      && s' == SetLk(SetPc(s, p, Out), q.pc.l, None)
    case Take(r) =>
      && Mine(s, q.pc, r) && s.chans[r].sleeplock && s.chans[r].cond
      && s' == SetCond(Put(s, p, q.(mutexes := q.mutexes + {r})), r, false)
    case Give(r) =>
      && Mine(s, q.pc, r) && s.chans[r].sleeplock && r in q.mutexes
      && s' == SetCond(Put(s, p, q.(mutexes := q.mutexes - {r}, pc := Owing(q.pc, r))), r, true)
    case SetTrue(r) =>
      && Mine(s, q.pc, r) && !s.chans[r].sleeplock
      && s' == SetCond(SetPc(s, p, Owing(q.pc, r)), r, true)
    case SetFalse(r) =>
      && Mine(s, q.pc, r) && !s.chans[r].sleeplock
      && s' == SetCond(s, r, false)
    case StartWake(r) =>
      && Mine(s, q.pc, r)
      && s' == SetPc(s, p, Waking(q.pc.l, q.pc.owes, q.pc.woke, r, 0))
    case WakeNext =>
      && q.pc.Waking?
      && var pc := q.pc;
      if pc.i >= |s.procs| then s' == SetPc(s, p, Crit(pc.l, pc.owes - {pc.r}, pc.woke + {pc.r}))
      else if pc.i == p then s' == SetPc(s, p, pc.(i := pc.i + 1))
      else
        && s.procs[pc.i].lock == None
        && var v := s.procs[pc.i];
        var v' := if v.state == SLEEPING && v.chan == Some(pc.r) then v.(state := RUNNABLE) else v;
        s' == SetPc(Put(s, pc.i, v'), p, pc.(i := pc.i + 1))
    case StartSleep(r) =>
      && Mine(s, q.pc, r) && q.pc.owes == {} && !s.chans[r].cond
      && s' == SetPc(s, p, Sleep1(q.pc.l, r))
    case LockSelf =>
      && q.pc.Sleep1? && q.lock == None
      && s' == Put(s, p, q.(pc := Sleep2(q.pc.l, q.pc.r), lock := Some(Self)))
    case DropLk =>
      && q.pc.Sleep2? && q.pc.l < |s.locks|
      && s' == SetLk(SetPc(s, p, Sleep3(q.pc.l, q.pc.r)), q.pc.l, None)
    case MarkSleeping =>
      && q.pc.Sleep3?
      && s' == Put(s, p, q.(pc := Sleep4(q.pc.l, q.pc.r), chan := Some(q.pc.r), state := SLEEPING))
    case Switch =>
      && q.pc.Sleep4?
      && s' == Put(s, p, q.(pc := Away(q.pc.l, q.pc.r), lock := Some(Scheduler)))
    case Retidy =>
      && q.pc.Resumed?
      && s' == Put(s, p, q.(pc := Want(q.pc.l), chan := None, lock := None))
    case SchedRelease =>
      q.lock == Some(Scheduler) && s' == Put(s, p, q.(lock := None))
    case SchedRun =>
      && q.lock == None && q.state == RUNNABLE && q.pc.Away?
      && s' == Put(s, p, q.(state := RUNNING, lock := Some(Self), pc := Resumed(q.pc.l, q.pc.r)))
    case Kill =>
      && q.lock == None
      && s' == Put(s, p, if q.state == SLEEPING then q.(state := RUNNABLE) else q)
  }

  // ---------------------------------------------------------------- the invariant

  /** The process is inside spin lock l. */
  predicate InLk(pc: Pc, l: nat) {
    (pc.Crit? || pc.Waking? || pc.Sleep1? || pc.Sleep2?) && pc.l == l
  }

  /** The process saw r's condition false, has let go of the lock, and nobody woke it. */
  predicate Committed(q: Proc, r: nat) {
    (q.pc.Sleep3? || q.pc.Sleep4? || (q.pc.Away? && q.state == SLEEPING)) && q.pc.r == r
  }

  /** The holder of the lock still has to look at process p in a wakeup of r. */
  predicate WillWake(pc: Pc, r: nat, p: nat) {
    (pc.Crit? && r in pc.owes) || (pc.Waking? && if pc.r == r then pc.i <= p else r in pc.owes)
  }

  /** In this critical section a wakeup of r has already looked at process p. */
  predicate Passed(pc: Pc, r: nat, p: nat) {
    ((pc.Crit? || pc.Waking?) && r in pc.woke) || (pc.Waking? && pc.r == r && p < pc.i)
  }

  predicate Asleep(pc: Pc) { pc.Sleep1? || pc.Sleep2? || pc.Sleep3? || pc.Sleep4? || pc.Away? || pc.Resumed? }

  ghost predicate ProcOk(s: State, p: nat)
    requires p < |s.procs|
  {
    var q := s.procs[p];
    && (q.lock == Some(Self) <==> q.pc.Sleep2? || q.pc.Sleep3? || q.pc.Sleep4? || q.pc.Resumed?)
    && (q.lock == Some(Scheduler) ==> q.pc.Away?)
    && (q.pc.Away? || q.pc.Sleep4? ==> q.chan == Some(q.pc.r))
    && (q.pc.Sleep4? ==> q.state == SLEEPING)
    && (q.pc.Away? ==> q.state != RUNNING)
    && (!q.pc.Away? && !q.pc.Sleep4? ==> q.state == RUNNING)
    && (!q.pc.Out? ==> q.pc.l < |s.locks|)
    && (Asleep(q.pc) || q.pc.Waking? ==> q.pc.r < |s.chans| && s.chans[q.pc.r].l == q.pc.l)
    && (q.pc.Sleep1? || q.pc.Sleep2? ==> !s.chans[q.pc.r].cond)
    && (!q.pc.Out? && InLk(q.pc, q.pc.l) ==> s.locks[q.pc.l] == Some(p))
    && (forall r :: r in q.mutexes ==> r < |s.chans| && s.chans[r].sleeplock && !s.chans[r].cond)
  }

  ghost predicate LockOk(s: State, l: nat)
    requires l < |s.locks|
  {
    s.locks[l].Some? ==> s.locks[l].value < |s.procs| && InLk(s.procs[s.locks[l].value].pc, l)
  }

  /** Process p and channel r: a true condition and a committed sleeper need a wakeup
      under way, and a process that a wakeup has passed is not committed. */
  ghost predicate ChanOk(s: State, r: nat, p: nat)
    requires r < |s.chans| && p < |s.procs|
  {
    Committed(s.procs[p], r) ==>
      && s.chans[r].l < |s.locks|
      && var h := s.locks[s.chans[r].l];
      && (s.chans[r].cond ==> h.Some? && h.value < |s.procs| && WillWake(s.procs[h.value].pc, r, p))
      && (h.Some? && h.value < |s.procs| ==> !Passed(s.procs[h.value].pc, r, p))
  }

  ghost predicate MutexOk(s: State) {
    forall p, q, r ::
      0 <= p < |s.procs| && 0 <= q < |s.procs| && r in s.procs[p].mutexes && r in s.procs[q].mutexes ==> p == q
  }

  ghost predicate Inv(s: State) {
    && (forall p :: 0 <= p < |s.procs| ==> ProcOk(s, p))
    && (forall l :: 0 <= l < |s.locks| ==> LockOk(s, l))
    && (forall r, p :: 0 <= r < |s.chans| && 0 <= p < |s.procs| ==> ChanOk(s, r, p))
    && MutexOk(s)
  }

  ghost predicate Init(s: State) {
    && (forall p :: 0 <= p < |s.procs| ==> s.procs[p] == Proc(Out, RUNNING, None, None, {}))
    && (forall l :: 0 <= l < |s.locks| ==> s.locks[l] == None)
    && (forall r :: 0 <= r < |s.chans| ==> s.chans[r].l < |s.locks|)
  }

  // ---------------------------------------------------------------- every step

  lemma ProcOf(s: State, p: nat)
    requires Inv(s) && p < |s.procs|
    ensures ProcOk(s, p) && MutexOk(s)
  {
  }

  lemma LockOf(s: State, l: nat)
    requires Inv(s) && l < |s.locks|
    ensures LockOk(s, l)
  {
  }

  lemma ChanOf(s: State, r: nat, p: nat)
    requires Inv(s) && r < |s.chans| && p < |s.procs|
    ensures ChanOk(s, r, p)
  {
  }

  /** The parts of the invariant, put together. */
  lemma Assemble(s: State)
    requires (forall p :: 0 <= p < |s.procs| ==> ProcOk(s, p)) && (forall l :: 0 <= l < |s.locks| ==> LockOk(s, l))
    requires (forall r, p :: 0 <= r < |s.chans| && 0 <= p < |s.procs| ==> ChanOk(s, r, p)) && MutexOk(s)
    ensures Inv(s)
  {
  }

  /** A change of process p alone that moves it neither into nor out of a lock, leaves it
      no more committed than it was, and forgets no wakeup. */
  lemma QuietStep(s: State, s': State, p: nat)
    requires Inv(s) && p < |s.procs| == |s'.procs| && s'.chans == s.chans && s'.locks == s.locks
    requires s'.procs == s.procs[p := s'.procs[p]]
    requires ProcOk(s', p) && s'.procs[p].mutexes == s.procs[p].mutexes
    requires forall l :: InLk(s.procs[p].pc, l) ==> InLk(s'.procs[p].pc, l)
    requires forall r :: Committed(s'.procs[p], r) ==> Committed(s.procs[p], r)
    requires forall r, x :: WillWake(s.procs[p].pc, r, x) ==> WillWake(s'.procs[p].pc, r, x)
    requires forall r, x :: Passed(s'.procs[p].pc, r, x) ==> Passed(s.procs[p].pc, r, x)
    ensures Inv(s')
  {
    forall x | 0 <= x < |s'.procs|
      ensures ProcOk(s', x)
    {
      assert ProcOk(s, x);
    }
    forall l | 0 <= l < |s'.locks|
      ensures LockOk(s', l)
    {
      assert LockOk(s, l);
    }
    forall r, x | 0 <= r < |s'.chans| && 0 <= x < |s'.procs|
      ensures ChanOk(s', r, x)
    {
      assert ChanOk(s, r, x);
    }
  }

  lemma PlainSteps(s: State, p: nat, a: Action, s': State)
    requires Inv(s) && Step(s, p, a, s')
    requires a.Enter? || a.StartSleep? || a.LockSelf? || a.MarkSleeping? || a.Switch?
             || a.Retidy? || a.SchedRelease? || a.SchedRun? || a.Kill? || a.StartWake?
    ensures Inv(s')
  {
    assert ProcOk(s, p);
    QuietStep(s, s', p);
  }

  /** Two processes cannot be inside the same lock. */
  lemma OneInside(s: State, p: nat, q: nat, l: nat)
    requires Inv(s) && p < |s.procs| && q < |s.procs| && InLk(s.procs[p].pc, l) && InLk(s.procs[q].pc, l)
    ensures p == q
  {
    assert ProcOk(s, p) && ProcOk(s, q);
  }

  lemma LockProc(s: State, p: nat, a: Action, s': State, x: nat)
    requires Inv(s) && Step(s, p, a, s') && (a.Acquire? || a.Leave? || a.DropLk?) && x < |s.procs|
    ensures x < |s'.procs| && ProcOk(s', x)
  {
    hide Inv;
    hide MutexOk;
    ProcOf(s, p);
    ProcOf(s, x);
  }

  lemma LockChan(s: State, p: nat, a: Action, s': State, r: nat, x: nat)
    requires Inv(s) && Step(s, p, a, s') && (a.Acquire? || a.Leave? || a.DropLk?)
    requires r < |s'.chans| && x < |s'.procs|
    ensures ChanOk(s', r, x)
  {
    hide Inv;
    hide MutexOk;
    ProcOf(s, p);
    ChanOf(s, r, x);
    if s.chans[r].l < |s.locks| {
      LockOf(s, s.chans[r].l);
    }
  }

  lemma LockSteps(s: State, p: nat, a: Action, s': State)
    requires Inv(s) && Step(s, p, a, s') && (a.Acquire? || a.Leave? || a.DropLk?)
    ensures Inv(s')
  {
    hide Inv;
    ProcOf(s, p);
    forall x | 0 <= x < |s'.procs|
      ensures ProcOk(s', x)
    {
      LockProc(s, p, a, s', x);
    }
    forall k | 0 <= k < |s'.locks|
      ensures LockOk(s', k)
    {
      LockOf(s, k);
    }
    forall r, x | 0 <= r < |s'.chans| && 0 <= x < |s'.procs|
      ensures ChanOk(s', r, x)
    {
      LockChan(s, p, a, s', r, x);
    }
    hide ProcOk;
    hide LockOk;
    hide ChanOk;
    Assemble(s');
  }

  /** The holder of a lock changes the condition of one of the lock's channels. */
  lemma CondStep(s: State, s': State, p: nat, r: nat)
    requires Inv(s) && p < |s.procs| == |s'.procs| && Mine(s, s.procs[p].pc, r)
    requires |s'.chans| == |s.chans| && s'.chans == s.chans[r := s.chans[r].(cond := s'.chans[r].cond)]
    requires s'.locks == s.locks && s'.procs == s.procs[p := s'.procs[p]]
    requires s'.procs[p].pc == if s'.chans[r].cond then Owing(s.procs[p].pc, r) else s.procs[p].pc
    requires s'.procs[p] == s.procs[p].(pc := s'.procs[p].pc, mutexes := s'.procs[p].mutexes)
    requires forall m :: m in s'.procs[p].mutexes ==> m < |s.chans| && s.chans[m].sleeplock && !s'.chans[m].cond
    requires s'.chans[r].cond ==> forall x :: 0 <= x < |s.procs| && x != p ==> r !in s.procs[x].mutexes
    requires MutexOk(s')
    ensures Inv(s')
  {
    assert ProcOk(s, p);
    var l := s.procs[p].pc.l;
    forall x | 0 <= x < |s'.procs|
      ensures ProcOk(s', x)
    {
      assert ProcOk(s, x);
      if x != p && (s.procs[x].pc.Sleep1? || s.procs[x].pc.Sleep2?) && s.procs[x].pc.r == r {
        OneInside(s, x, p, l);
      }
    }
    forall k | 0 <= k < |s'.locks|
      ensures LockOk(s', k)
    {
      assert LockOk(s, k);
    }
    forall c, x | 0 <= c < |s'.chans| && 0 <= x < |s'.procs|
      ensures ChanOk(s', c, x)
    {
      assert ChanOk(s, c, x);
    }
  }

  lemma CondSteps(s: State, p: nat, a: Action, s': State)
    requires Inv(s) && Step(s, p, a, s') && (a.SetTrue? || a.SetFalse?)
    ensures Inv(s')
  {
    assert ProcOk(s, p);
    forall x | 0 <= x < |s.procs|
      ensures a.r !in s.procs[x].mutexes
    {
      assert ProcOk(s, x);
    }
    CondStep(s, s', p, a.r);
  }

  lemma MutexSteps(s: State, p: nat, a: Action, s': State)
    requires Inv(s) && Step(s, p, a, s') && (a.Take? || a.Give?)
    ensures Inv(s')
  {
    assert ProcOk(s, p);
    forall x | 0 <= x < |s.procs|
      ensures x != p ==> a.r !in s.procs[x].mutexes
    {
      assert ProcOk(s, x);
    }
    CondStep(s, s', p, a.r);
  }

  lemma WakeProc(s: State, p: nat, a: Action, s': State, x: nat)
    requires Inv(s) && Step(s, p, a, s') && a.WakeNext? && x < |s.procs|
    requires s.procs[p].pc.i < |s.procs| && s.procs[p].pc.i != p
    ensures x < |s'.procs| && ProcOk(s', x)
  {
    hide Inv;
    hide MutexOk;
    ProcOf(s, p);
    ProcOf(s, s.procs[p].pc.i);
    ProcOf(s, x);
  }

  lemma WakeChan(s: State, p: nat, a: Action, s': State, r: nat, x: nat)
    requires Inv(s) && Step(s, p, a, s') && a.WakeNext? && r < |s'.chans| && x < |s'.procs|
    requires s.procs[p].pc.i < |s.procs| && s.procs[p].pc.i != p
    ensures ChanOk(s', r, x)
  {
    hide Inv;
    hide MutexOk;
    ProcOf(s, p);
    ProcOf(s, s.procs[p].pc.i);
    ChanOf(s, r, x);
  }

  lemma WakeMutex(s: State, p: nat, a: Action, s': State)
    requires MutexOk(s) && Step(s, p, a, s') && a.WakeNext?
    requires s.procs[p].pc.i < |s.procs| && s.procs[p].pc.i != p
    ensures MutexOk(s')
  {
  }

  /** Looking at process i: whoever slept on the channel there is runnable afterwards. */
  lemma WakeOne(s: State, p: nat, a: Action, s': State)
    requires Inv(s) && Step(s, p, a, s') && a.WakeNext?
    requires s.procs[p].pc.i < |s.procs| && s.procs[p].pc.i != p
    ensures Inv(s')
  {
    hide Inv;
    hide MutexOk;
    var pc := s.procs[p].pc;
    ProcOf(s, p);
    forall x | 0 <= x < |s'.procs|
      ensures ProcOk(s', x)
    {
      WakeProc(s, p, a, s', x);
    }
    forall k | 0 <= k < |s'.locks|
      ensures LockOk(s', k)
    {
      LockOf(s, k);
    }
    forall r, x | 0 <= r < |s'.chans| && 0 <= x < |s'.procs|
      ensures ChanOk(s', r, x)
    {
      WakeChan(s, p, a, s', r, x);
    }
    hide ProcOk;
    hide LockOk;
    hide ChanOk;
    WakeMutex(s, p, a, s');
    Assemble(s');
  }

  lemma WakeRest(s: State, p: nat, a: Action, s': State)
    requires Inv(s) && Step(s, p, a, s') && a.WakeNext?
    requires s.procs[p].pc.i >= |s.procs| || s.procs[p].pc.i == p
    ensures Inv(s')
  {
    assert ProcOk(s, p);
    forall x | 0 <= x < |s'.procs|
      ensures ProcOk(s', x)
    {
      assert ProcOk(s, x);
    }
    forall k | 0 <= k < |s'.locks|
      ensures LockOk(s', k)
    {
      assert LockOk(s, k);
    }
    forall r, x | 0 <= r < |s'.chans| && 0 <= x < |s'.procs|
      ensures ChanOk(s', r, x)
    {
      assert ChanOk(s, r, x);
    }
  }

  /** Every step of every process, scheduler and killer keeps the invariant. */
  lemma StepKeeps(s: State, p: nat, a: Action, s': State)
    requires Inv(s) && Step(s, p, a, s')
    ensures Inv(s')
  {
    match a
    case Acquire => LockSteps(s, p, a, s');
    case Leave => LockSteps(s, p, a, s');
    case DropLk => LockSteps(s, p, a, s');
    case Take(_) => MutexSteps(s, p, a, s');
    case Give(_) => MutexSteps(s, p, a, s');
    case SetTrue(_) => CondSteps(s, p, a, s');
    case SetFalse(_) => CondSteps(s, p, a, s');
    case WakeNext =>
      if s.procs[p].pc.i < |s.procs| && s.procs[p].pc.i != p {
        WakeOne(s, p, a, s');
      } else {
        WakeRest(s, p, a, s');
      }
    case _ => PlainSteps(s, p, a, s');
  }

  // ---------------------------------------------------------------- whole runs

  datatype Event = Event(p: nat, a: Action)

  ghost predicate StepAt(ss: seq<State>, es: seq<Event>, i: nat)
    requires i < |es| && |ss| == |es| + 1
  {
    Step(ss[i], es[i].p, es[i].a, ss[i + 1])
  }

  ghost predicate IsRun(ss: seq<State>, es: seq<Event>) {
    && |ss| == |es| + 1 && Init(ss[0])
    && forall i :: 0 <= i < |es| ==> StepAt(ss, es, i)
  }

  lemma {:induction false} RunInv(ss: seq<State>, es: seq<Event>, i: nat)
    requires IsRun(ss, es) && i < |ss|
    ensures Inv(ss[i])
  {
    if i > 0 {
      RunInv(ss, es, i - 1);
      assert StepAt(ss, es, i - 1);
      StepKeeps(ss[i - 1], es[i - 1].p, es[i - 1].a, ss[i]);
    }
  }

  /** No lost wakeup: in every reachable state, a process that tested r's condition false
      and let go of the lock, while the condition now holds, is one that the present
      holder of the lock is still going to look at.  So once the lock is free, or its
      holder has finished its wakeups, nobody is left asleep on a true condition. */
  lemma NoLostWakeup(ss: seq<State>, es: seq<Event>, i: nat, r: nat, p: nat)
    requires IsRun(ss, es) && i < |ss| && r < |ss[i].chans| && p < |ss[i].procs|
    requires ss[i].chans[r].cond && Committed(ss[i].procs[p], r)
    ensures var s := ss[i]; var l := s.chans[r].l;
            l < |s.locks| && s.locks[l].Some? && s.locks[l].value < |s.procs|
            && s.locks[l].value != p && WillWake(s.procs[s.locks[l].value].pc, r, p)
  {
    RunInv(ss, es, i);
    var s := ss[i];
    assert ChanOk(s, r, p) && ProcOk(s, p) && LockOk(s, s.chans[r].l);
  }

  /** A wakeup that has run to its end, lock still held, has left no process asleep on
      the channel: everyone who was waiting there is runnable or running. */
  lemma WakeupWakesAll(ss: seq<State>, es: seq<Event>, i: nat, w: nat, r: nat, p: nat)
    requires IsRun(ss, es) && i < |ss| && w < |ss[i].procs| && p < |ss[i].procs| && r < |ss[i].chans|
    requires var pc := ss[i].procs[w].pc; pc.Crit? && r in pc.woke && pc.l == ss[i].chans[r].l
    ensures !Committed(ss[i].procs[p], r)
    ensures ss[i].procs[p].pc.Away? && ss[i].procs[p].pc.r == r ==> ss[i].procs[p].state == RUNNABLE
  {
    RunInv(ss, es, i);
    var s := ss[i];
    assert ChanOk(s, r, p) && ProcOk(s, p) && ProcOk(s, w) && LockOk(s, s.chans[r].l);
  }

  // ---------------------------------------------------------------- asleep and awake

  /** A wakeup by process x looks at process p, which sleeps on its channel. */
  ghost predicate Wakes(s: State, x: nat, a: Action, p: nat) {
    && a.WakeNext? && x < |s.procs| && p < |s.procs| && x != p
    && s.procs[x].pc.Waking? && s.procs[x].pc.i == p && s.procs[p].chan == Some(s.procs[x].pc.r)
  }

  lemma WokenStep(s: State, x: nat, a: Action, s': State, p: nat)
    requires Inv(s) && Step(s, x, a, s') && p < |s.procs| && s.procs[p].pc.Away? && s.procs[p].state == SLEEPING
    ensures p < |s'.procs| && s'.procs[p].pc == s.procs[p].pc
    ensures s'.procs[p].state == SLEEPING <==> !Wakes(s, x, a, p) && !(x == p && a.Kill?)
  {
    hide Inv;
    hide MutexOk;
    ProcOf(s, p);
    ProcOf(s, x);
    hide ProcOk;
  }

  /** A process that sleeps goes on sleeping until a wakeup of its channel comes to it, or somebody
      kills it, and then it does not. */
  lemma SleepsUntilWoken(ss: seq<State>, es: seq<Event>, i: nat, p: nat)
    requires IsRun(ss, es) && i < |es| && p < |ss[i].procs|
    requires ss[i].procs[p].pc.Away? && ss[i].procs[p].state == SLEEPING
    ensures p < |ss[i + 1].procs| && ss[i + 1].procs[p].pc == ss[i].procs[p].pc
    ensures ss[i + 1].procs[p].state == SLEEPING <==> !Wakes(ss[i], es[i].p, es[i].a, p) && es[i] != Event(p, Kill)
  {
    hide Inv;
    hide Step;
    RunInv(ss, es, i);
    assert StepAt(ss, es, i);
    WokenStep(ss[i], es[i].p, es[i].a, ss[i + 1], p);
  }

  lemma SlotsStay(s: State, x: nat, a: Action, s': State)
    requires Step(s, x, a, s')
    ensures |s'.procs| == |s.procs|
  {
  }

  /** How many looks the wakeup that process p started after event j has taken up to event k. */
  function Looks(es: seq<Event>, j: nat, k: nat, p: nat): nat
    requires j < k <= |es|
    decreases k
  {
    if k == j + 1 then 0 else Looks(es, j, k - 1, p) + if es[k - 1] == Event(p, WakeNext) then 1 else 0
  }

  ghost predicate WakingAt(s: State, p: nat, r: nat) {
    p < |s.procs| && s.procs[p].pc.Waking? && s.procs[p].pc.r == r
  }

  lemma LookStep(s: State, x: nat, a: Action, s': State, p: nat, r: nat)
    requires Step(s, x, a, s') && WakingAt(s, p, r) && WakingAt(s', p, r)
    ensures s'.procs[p].pc.i == s.procs[p].pc.i + (if x == p && a.WakeNext? then 1 else 0) && |s'.procs| == |s.procs|
    ensures x == p && a.WakeNext? ==> s.procs[p].pc.i < |s.procs|
  {
  }

  /** wakeup() comes to an end: its looks go through the process table once. */
  lemma {:induction false} WakeupFinishes(ss: seq<State>, es: seq<Event>, j: nat, k: nat)
    requires IsRun(ss, es) && j < k < |ss| && es[j].a.StartWake?
    requires forall m :: j < m <= k ==> WakingAt(ss[m], es[j].p, es[j].a.r)
    ensures WakingAt(ss[k], es[j].p, es[j].a.r)
    ensures ss[k].procs[es[j].p].pc.i == Looks(es, j, k, es[j].p) <= |ss[k].procs|
    decreases k
  {
    hide Step;
    assert WakingAt(ss[k], es[j].p, es[j].a.r);
    assert StepAt(ss, es, k - 1);
    if k == j + 1 {
      WakeStarts(ss[j], es[j].p, es[j].a, ss[k]);
    } else {
      assert WakingAt(ss[k - 1], es[j].p, es[j].a.r);
      WakeupFinishes(ss, es, j, k - 1);
      LookStep(ss[k - 1], es[k - 1].p, es[k - 1].a, ss[k], es[j].p, es[j].a.r);
    }
  }

  lemma WakeStarts(s: State, x: nat, a: Action, s': State)
    requires Step(s, x, a, s') && a.StartWake?
    ensures x < |s'.procs| && s'.procs[x].pc.Waking? && s'.procs[x].pc.i == 0
  {
  }

  /** From its call until it has the spin lock again the process is in sleep(r). */
  predicate InSleep(pc: Pc, l: nat, r: nat) {
    pc == Want(l) || (Asleep(pc) && pc.l == l && pc.r == r)
  }

  lemma SleepStep(s: State, x: nat, a: Action, s': State, p: nat, l: nat, r: nat)
    requires Inv(s) && Step(s, x, a, s') && p < |s.procs| && InSleep(s.procs[p].pc, l, r)
    ensures |s'.procs| == |s.procs| && |s'.locks| == |s.locks|
    ensures InSleep(s'.procs[p].pc, l, r) ||
            (s'.procs[p].pc == Crit(l, {}, {}) && l < |s'.locks| && s'.locks[l] == Some(p))
  {
    hide Inv;
    hide MutexOk;
    ProcOf(s, p);
  }

  lemma SleepStarts(s: State, x: nat, a: Action, s': State)
    requires Inv(s) && Step(s, x, a, s') && a.StartSleep?
    ensures x < |s'.procs| && a.r < |s.chans| && InSleep(s'.procs[x].pc, s.chans[a.r].l, a.r)
  {
  }

  ghost predicate InSleepAt(s: State, p: nat, l: nat, r: nat) {
    p < |s.procs| && InSleep(s.procs[p].pc, l, r)
  }

  ghost predicate Returned(s: State, p: nat, l: nat) {
    p < |s.procs| && s.procs[p].pc == Crit(l, {}, {}) && l < |s.locks| && s.locks[l] == Some(p)
  }

  /** sleep() returns with the lock held: as long after the call of sleep(r) as the process has been
      in sleep(), it still is, or it has r's spin lock. */
  lemma SleepReturns(ss: seq<State>, es: seq<Event>, j: nat, i: nat)
    requires IsRun(ss, es) && j < i < |ss| && es[j].a.StartSleep?
    requires es[j].a.r < |ss[j].chans|
    requires forall k :: j < k < i ==> InSleepAt(ss[k], es[j].p, ss[j].chans[es[j].a.r].l, es[j].a.r)
    ensures var l := ss[j].chans[es[j].a.r].l;
            InSleepAt(ss[i], es[j].p, l, es[j].a.r) || Returned(ss[i], es[j].p, l)
  {
    hide Inv;
    hide Step;
    hide InSleep;
    RunInv(ss, es, i - 1);
    assert StepAt(ss, es, i - 1);
    if i == j + 1 {
      SleepStarts(ss[j], es[j].p, es[j].a, ss[i]);
    } else {
      SleepStep(ss[i - 1], es[i - 1].p, es[i - 1].a, ss[i], es[j].p, ss[j].chans[es[j].a.r].l, es[j].a.r);
    }
  }

  predicate ChanRight(q: Proc) {
    q.chan == if q.pc.Sleep4? || q.pc.Away? || q.pc.Resumed? then Some(q.pc.r) else None
  }

  /** chan is set exactly while the process is in the part of sleep() that is under p->lock. */
  lemma {:induction false} ChanCleared(ss: seq<State>, es: seq<Event>, i: nat, p: nat)
    requires IsRun(ss, es) && i < |ss| && p < |ss[i].procs|
    ensures ChanRight(ss[i].procs[p])
  {
    if i > 0 {
      hide Step;
      assert StepAt(ss, es, i - 1);
      SlotsStay(ss[i - 1], es[i - 1].p, es[i - 1].a, ss[i]);
      ChanCleared(ss, es, i - 1, p);
      ChanStep(ss[i - 1], es[i - 1].p, es[i - 1].a, ss[i], p);
    }
  }

  lemma ChanStep(s: State, x: nat, a: Action, s': State, p: nat)
    requires Step(s, x, a, s') && p < |s.procs| && ChanRight(s.procs[p])
    ensures p < |s'.procs| && ChanRight(s'.procs[p])
  {
    if x != p {
      OtherPc(s, x, a, s', p);
    }
  }

  lemma OtherPc(s: State, x: nat, a: Action, s': State, p: nat)
    requires Step(s, x, a, s') && p < |s.procs| && x != p
    ensures p < |s'.procs| && s'.procs[p].pc == s.procs[p].pc && s'.procs[p].chan == s.procs[p].chan
  {
  }

  /** Who has p->lock, by the last event of the process that concerns it. */
  function LockAfter(es: seq<Event>, p: nat): Option<Owner> {
    if es == [] then None
    else
      var e := es[|es| - 1];
      if e.p == p && (e.a.LockSelf? || e.a.SchedRun?) then Some(Self)
      else if e.p == p && e.a.Switch? then Some(Scheduler)
      else if e.p == p && (e.a.SchedRelease? || e.a.Retidy?) then None
      else LockAfter(es[..|es| - 1], p)
  }

  /** p->lock goes from sleep() to the scheduler, which lets go of it, and comes back with the
      process, which lets go of it in its turn. */
  lemma {:induction false} LockTravels(ss: seq<State>, es: seq<Event>, i: nat, p: nat)
    requires IsRun(ss, es) && i < |ss| && p < |ss[i].procs|
    ensures ss[i].procs[p].lock == LockAfter(es[..i], p)
  {
    if i > 0 {
      hide Step;
      assert StepAt(ss, es, i - 1);
      SlotsStay(ss[i - 1], es[i - 1].p, es[i - 1].a, ss[i]);
      LockTravels(ss, es, i - 1, p);
      assert es[..i][..i - 1] == es[..i - 1];
      LockStep(ss[i - 1], es[i - 1], ss[i], p);
    }
  }

  lemma LockStep(s: State, e: Event, s': State, p: nat)
    requires Step(s, e.p, e.a, s') && p < |s.procs|
    ensures p < |s'.procs|
    ensures s'.procs[p].lock == if e.p != p then s.procs[p].lock
                                else if e.a.LockSelf? || e.a.SchedRun? then Some(Self)
                                else if e.a.Switch? then Some(Scheduler)
                                else if e.a.SchedRelease? || e.a.Retidy? then None else s.procs[p].lock
  {
  }

  /** From acquiresleep() to its own releasesleep() a process has the sleep lock. */
  lemma {:induction false} HeldUntilGiven(ss: seq<State>, es: seq<Event>, j: nat, i: nat)
    requires IsRun(ss, es) && j < i < |ss| && es[j].a.Take?
    requires forall k :: j < k < i ==> es[k] != Event(es[j].p, Give(es[j].a.r))
    ensures es[j].p < |ss[i].procs| && es[j].a.r in ss[i].procs[es[j].p].mutexes
    decreases i
  {
    hide Step;
    assert StepAt(ss, es, i - 1);
    if i == j + 1 {
      TakeStep(ss[j], es[j], ss[i]);
    } else {
      HeldUntilGiven(ss, es, j, i - 1);
      KeepStep(ss[i - 1], es[i - 1], ss[i], es[j].p, es[j].a.r);
    }
  }

  lemma TakeStep(s: State, e: Event, s': State)
    requires Step(s, e.p, e.a, s') && e.a.Take?
    ensures e.p < |s'.procs| && e.a.r in s'.procs[e.p].mutexes && e.a.r < |s.chans| && s.chans[e.a.r].cond
  {
  }

  lemma KeepStep(s: State, e: Event, s': State, p: nat, r: nat)
    requires Step(s, e.p, e.a, s') && p < |s.procs| && r in s.procs[p].mutexes && e != Event(p, Give(r))
    ensures p < |s'.procs| && r in s'.procs[p].mutexes
  {
  }

  /** Between two acquisitions of a sleep lock the first holder has released it. */
  lemma TakenInTurn(ss: seq<State>, es: seq<Event>, j: nat, i: nat)
    requires IsRun(ss, es) && j < i < |es| && es[j].a.Take? && es[i].a == es[j].a
    ensures exists k :: j < k < i && es[k] == Event(es[j].p, Give(es[j].a.r))
  {
    hide Step;
    if forall k :: j < k < i ==> es[k] != Event(es[j].p, Give(es[j].a.r)) {
      HeldUntilGiven(ss, es, j, i);
      SleepLockExclusive(ss, es, i, es[j].p, es[j].p, es[j].a.r);
      assert StepAt(ss, es, i);
      TakeStep(ss[i], es[i], ss[i + 1]);
      assert false;
    }
  }

  /** A sleep lock has at most one holder, and while it has one its locked flag is set. */
  lemma SleepLockExclusive(ss: seq<State>, es: seq<Event>, i: nat, p: nat, q: nat, r: nat)
    requires IsRun(ss, es) && i < |ss| && p < |ss[i].procs| && q < |ss[i].procs|
    requires r in ss[i].procs[p].mutexes
    ensures r in ss[i].procs[q].mutexes ==> p == q
    ensures r < |ss[i].chans| && !ss[i].chans[r].cond
  {
    RunInv(ss, es, i);
    assert ProcOk(ss[i], p);
  }
}
