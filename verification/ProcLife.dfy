/** The life of processes in kernel/proc.c: fork, exit, wait, reparent, sleep, wakeup,
    yield and the schedulers, any number of processes on any number of CPUs, in every
    interleaving.

    A critical section that takes one free lock, looks at what that lock protects and
    releases it again is one step, together with writes before it that only the holder of
    wait_lock can see.  Locks held longer are explicit: wait_lock, and each p->lock, which
    travels between a process and the scheduler of its CPU. */
module ProcLife {
  import opened Options

  datatype PState = UNUSED | USED | SLEEPING | RUNNABLE | RUNNING | ZOMBIE
  datatype Owner = Self | Cpu(c: nat)

  /** Where the kernel thread of a process is.  again: it will look for children again. */
  datatype Pc =
    | NoThread | Nascent | Embryo                // unused slot; inside fork; never run
    | Run                                        // no lock held
    | ForkUsed(np: nat) | ForkLinked(np: nat)    // child allocated; parent set
    | Exit(i: nat) | ExitWoken                   // wait_lock held: in reparent(); parent woken
    | ExitZombie | ExitSwitch                    // wait_lock and own lock held; own lock only
    | WaitScan(i: nat, kids: bool) | WaitSleep   // wait_lock held; + own lock
    | SleepHeld(again: bool)                     // own lock held, in sleep() before SLEEPING
    | SwitchOut(again: bool)                     // own lock held, state set, in sched()
    | Away(again: bool) | Dead                   // switched away
    | Resumed(again: bool)                       // switched back to, own lock held
    | WantWait                                   // own lock released, wants wait_lock again

  datatype Proc = Proc(state: PState, parent: Option<nat>, pid: nat, lock: Option<Owner>, pc: Pc)

  /** exited and reaped are histories: the pids that became zombies, and those freed. */
  datatype State = State(
    procs: seq<Proc>, cpus: seq<Option<nat>>, waitLock: Option<nat>, nextpid: nat,
    exited: set<nat>, reaped: set<nat>)

  const INIT := 0 // the slot of initproc

  datatype Action =
    | ForkAlloc(np: nat) | ForkFail | ForkLink | ForkReady
    | ExitStart | ExitReparent | ExitWake | ExitMark | ExitRelease
    | WaitStart | WaitLook | WaitFault | WaitGiveUp | WaitSleepStart | WaitDrop | WaitAgain
    | SleepStart | SleepMark | Yield | Switch(c: nat) | Resume
    | CpuRun(c: nat) | CpuRelease(c: nat) | Wakeup

  function Put(s: State, p: nat, q: Proc): State
    requires p < |s.procs|
  {
    s.(procs := s.procs[p := q])
  }

  function Go(s: State, p: nat, pc: Pc): State
    requires p < |s.procs|
  {
    Put(s, p, s.procs[p].(pc := pc))
  }

  /** wakeup(f), for the process f itself as the channel, on which it sleeps in wait(). */
  function WakeWaiter(s: State, f: nat): State
    requires f < |s.procs|
  {
    if s.procs[f].state == SLEEPING && s.procs[f].pc == Away(true) then Put(s, f, s.procs[f].(state := RUNNABLE)) else s
  }

  /** reparent() of p has given slot i to init. */
  function Reparented(s: State, p: nat, i: nat): State
    requires p < |s.procs| && i < |s.procs|
  {
    Go(Put(s, i, s.procs[i].(parent := Some(INIT))), p, Exit(i + 1))
  }

  /** One step of process p; the last three actions are those of a scheduler on CPU c, or
      of anyone calling wakeup or kill, upon process p. */
  ghost predicate Step(s: State, p: nat, a: Action, s': State) {
    p < |s.procs| &&
    var q := s.procs[p];
    match a
    case ForkAlloc(np) =>
      && q.pc.Run? && np < |s.procs| && s.procs[np].state == UNUSED && s.procs[np].lock == None
      && s' == Go(Put(s, np, s.procs[np].(state := USED, pid := s.nextpid, pc := Nascent)), p, ForkUsed(np)).(
                 nextpid := s.nextpid + 1)
    case ForkFail => q.pc.Run? && s' == s.(nextpid := s.nextpid + 1)
    case ForkLink =>
      && q.pc.ForkUsed? && s.waitLock == None && q.pc.np < |s.procs|
      && s' == Go(Put(s, q.pc.np, s.procs[q.pc.np].(parent := Some(p))), p, ForkLinked(q.pc.np))
    case ForkReady =>
      && q.pc.ForkLinked? && q.pc.np < |s.procs| && s.procs[q.pc.np].lock == None
      && s' == Go(Put(s, q.pc.np, s.procs[q.pc.np].(state := RUNNABLE, pc := Embryo)), p, Run)
    case ExitStart =>
      && q.pc.Run? && p != INIT && s.waitLock == None
      && s' == Go(s, p, Exit(0)).(waitLock := Some(p))
    case ExitReparent =>
      && q.pc.Exit? && q.pc.i < |s.procs| && INIT < |s.procs|
      && if s.procs[q.pc.i].parent != Some(p) then s' == Go(s, p, Exit(q.pc.i + 1))
         else s.procs[INIT].lock == None && s' == Reparented(WakeWaiter(s, INIT), p, q.pc.i)
    case ExitWake =>
      && q.pc.Exit? && q.pc.i == |s.procs|
      && if q.parent == None || q.parent.value >= |s.procs| then s' == Go(s, p, ExitWoken)
         else s.procs[q.parent.value].lock == None && s' == Go(WakeWaiter(s, q.parent.value), p, ExitWoken)
    case ExitMark =>
      && q.pc.ExitWoken? && q.lock == None
      && s' == Put(s, p, q.(lock := Some(Self), state := ZOMBIE, pc := ExitZombie)).(exited := s.exited + {q.pid})
    case ExitRelease =>
      q.pc.ExitZombie? && s' == Go(s, p, ExitSwitch).(waitLock := None)
    case WaitStart =>
      && q.pc.Run? && s.waitLock == None
      && s' == Go(s, p, WaitScan(0, false)).(waitLock := Some(p))
    case WaitLook =>
      && q.pc.WaitScan? && q.pc.i < |s.procs|
      && var child := s.procs[q.pc.i];
      if child.parent != Some(p) then s' == Go(s, p, WaitScan(q.pc.i + 1, q.pc.kids))
      else
        && child.lock == None
        && if child.state == ZOMBIE then
             s' == Go(Put(s, q.pc.i, Proc(UNUSED, None, 0, None, NoThread)), p, Run).(
                     waitLock := None, reaped := s.reaped + {child.pid})
           else s' == Go(s, p, WaitScan(q.pc.i + 1, true))
    case WaitFault =>
      && q.pc.WaitScan? && q.pc.i < |s.procs|
      && s.procs[q.pc.i].parent == Some(p) && s.procs[q.pc.i].lock == None && s.procs[q.pc.i].state == ZOMBIE
      && s' == Go(s, p, Run).(waitLock := None)
    case WaitGiveUp =>
      && q.pc.WaitScan? && q.pc.i == |s.procs|
      && s' == Go(s, p, Run).(waitLock := None)
    case WaitSleepStart =>
      && q.pc.WaitScan? && q.pc.i == |s.procs| && q.pc.kids && q.lock == None
      && s' == Put(s, p, q.(lock := Some(Self), pc := WaitSleep))
    case WaitDrop =>
      q.pc.WaitSleep? && s' == Go(s, p, SleepHeld(true)).(waitLock := None)
    case WaitAgain =>
      && q.pc.WantWait? && s.waitLock == None
      && s' == Go(s, p, WaitScan(0, false)).(waitLock := Some(p))
    case SleepStart =>
      q.pc.Run? && q.lock == None && s' == Put(s, p, q.(lock := Some(Self), pc := SleepHeld(false)))
    case SleepMark =>
      q.pc.SleepHeld? && s' == Put(s, p, q.(state := SLEEPING, pc := SwitchOut(q.pc.again)))
    case Yield =>
      && q.pc.Run? && q.lock == None
      && s' == Put(s, p, q.(lock := Some(Self), state := RUNNABLE, pc := SwitchOut(false)))
    case Switch(c) =>
      && (q.pc.SwitchOut? || q.pc.ExitSwitch?) && c < |s.cpus| && s.cpus[c] == Some(p)
      && s' == Put(s, p, q.(lock := Some(Cpu(c)), pc := if q.pc.ExitSwitch? then Dead else Away(q.pc.again)))
    case Resume =>
      && q.pc.Resumed?
      && s' == Put(s, p, q.(lock := None, pc := if q.pc.again then WantWait else Run))
    case CpuRun(c) =>
      && c < |s.cpus| && s.cpus[c] == None && q.lock == None && q.state == RUNNABLE && (q.pc.Away? || q.pc.Embryo?)
      && s' == Put(s, p, q.(state := RUNNING, lock := Some(Self), pc := Resumed(q.pc.Away? && q.pc.again))).(
                 cpus := s.cpus[c := Some(p)])
    case CpuRelease(c) =>
      && c < |s.cpus| && s.cpus[c] == Some(p) && q.lock == Some(Cpu(c))
      && s' == Put(s, p, q.(lock := None)).(cpus := s.cpus[c := None])
    case Wakeup =>
      q.lock == None && s' == Put(s, p, if q.state == SLEEPING then q.(state := RUNNABLE) else q)
  }

  // ---------------------------------------------------------------- the invariant

  predicate OwnLock(pc: Pc) {
    pc.ExitZombie? || pc.ExitSwitch? || pc.WaitSleep? || pc.SleepHeld? || pc.SwitchOut? || pc.Resumed?
  }

  predicate InWaitLock(pc: Pc) { pc.Exit? || pc.ExitWoken? || pc.ExitZombie? || pc.WaitScan? || pc.WaitSleep? }

  /** The thread is executing on a CPU. */
  predicate Active(pc: Pc) {
    !pc.NoThread? && !pc.Nascent? && !pc.Embryo? && !pc.Away? && !pc.Dead?
  }

  predicate StateOk(pc: Pc, st: PState) {
    match pc
    case NoThread => st == UNUSED
    case Nascent => st == USED
    case Embryo => st == RUNNABLE
    case Away(_) => st == SLEEPING || st == RUNNABLE
    case SwitchOut(_) => st == SLEEPING || st == RUNNABLE
    case Dead => st == ZOMBIE
    case ExitZombie => st == ZOMBIE
    case ExitSwitch => st == ZOMBIE
    case _ => st == RUNNING
  }

  predicate Forking(pc: Pc, np: nat) { (pc.ForkUsed? || pc.ForkLinked?) && pc.np == np }

  ghost predicate ProcOk(s: State, p: nat)
    requires p < |s.procs|
  {
    var q := s.procs[p];
    && StateOk(q.pc, q.state)
    && (OwnLock(q.pc) <==> q.lock == Some(Self))
    && (q.lock.Some? && q.lock.value.Cpu? ==>
          (q.pc.Away? || q.pc.Dead?) && q.lock.value.c < |s.cpus| && s.cpus[q.lock.value.c] == Some(p))
    && (Active(q.pc) ==> exists c :: 0 <= c < |s.cpus| && s.cpus[c] == Some(p))
    && (InWaitLock(q.pc) ==> s.waitLock == Some(p))
    && (q.parent.Some? ==> q.parent.value < |s.procs| && Alive(s.procs[q.parent.value].state))
    && (q.pc.ForkUsed? || q.pc.ForkLinked? ==> q.pc.np < |s.procs| && s.procs[q.pc.np].pc.Nascent?)
    && (q.pc.Exit? ==> p != INIT && q.pc.i <= |s.procs|
                       && forall j :: 0 <= j < q.pc.i ==> s.procs[j].parent != Some(p))
    && (q.pc.ExitWoken? ==> forall j :: 0 <= j < |s.procs| ==> s.procs[j].parent != Some(p))
    && (q.pc.ExitWoken? || q.pc.ExitZombie? || q.pc.ExitSwitch? || q.pc.Dead? ==> p != INIT)
    && (q.state == UNUSED ==> q.parent == None)
    && (q.state != UNUSED ==> q.pid < s.nextpid && (q.state == ZOMBIE <==> q.pid in s.exited) && q.pid !in s.reaped)
  }

  /** A process that may have children. */
  predicate Alive(st: PState) { st != UNUSED && st != USED && st != ZOMBIE }

  ghost predicate CpuOk(s: State, c: nat)
    requires c < |s.cpus|
  {
    s.cpus[c].Some? ==>
      && s.cpus[c].value < |s.procs|
      && var q := s.procs[s.cpus[c].value];
      (Active(q.pc) && q.lock != Some(Cpu(c))) || q.lock == Some(Cpu(c))
  }

  predicate SamePid(p: Proc, q: Proc) { p.state != UNUSED && q.state != UNUSED && p.pid == q.pid }

  /** No process is current on two CPUs, two forks never share a child, pids differ. */
  ghost predicate Distinct(s: State) {
    && (forall c, d :: 0 <= c < |s.cpus| && 0 <= d < |s.cpus| && s.cpus[c].Some? && s.cpus[c] == s.cpus[d] ==> c == d)
    && (forall p, q, np ::
          0 <= p < |s.procs| && 0 <= q < |s.procs| && Forking(s.procs[p].pc, np) && Forking(s.procs[q].pc, np) ==>
            p == q)
    && (forall p, q :: 0 <= p < |s.procs| && 0 <= q < |s.procs| && SamePid(s.procs[p], s.procs[q]) ==> p == q)
  }

  ghost predicate Inv(s: State) {
    && INIT < |s.procs| && Alive(s.procs[INIT].state)
    && (forall p :: 0 <= p < |s.procs| ==> ProcOk(s, p))
    && (forall c :: 0 <= c < |s.cpus| ==> CpuOk(s, c))
    && (s.waitLock.Some? ==> s.waitLock.value < |s.procs| && InWaitLock(s.procs[s.waitLock.value].pc))
    && Distinct(s)
    && s.reaped <= s.exited && (forall i :: i in s.exited ==> i < s.nextpid)
  }

  /** userinit() done: init is the only process, runnable, and no scheduler has run it. */
  ghost predicate Init(s: State) {
    && |s.procs| > INIT && s.waitLock == None && s.nextpid == 2 && s.exited == {} && s.reaped == {}
    && s.procs[INIT] == Proc(RUNNABLE, None, 1, None, Embryo)
    && (forall p :: 0 <= p < |s.procs| && p != INIT ==> s.procs[p] == Proc(UNUSED, None, 0, None, NoThread))
    && (forall c :: 0 <= c < |s.cpus| ==> s.cpus[c] == None)
  }

  lemma InitInv(s: State)
    requires Init(s)
    ensures Inv(s)
  {
  }

  // ---------------------------------------------------------------- every step

  /** What the invariant says about process p, and about no other. */
  lemma ProcOf(s: State, p: nat)
    requires Inv(s) && p < |s.procs|
    ensures ProcOk(s, p) && INIT < |s.procs| && Alive(s.procs[INIT].state)
    ensures s.reaped <= s.exited && forall i :: i in s.exited ==> i < s.nextpid
  {
  }

  lemma CpuOf(s: State, c: nat)
    requires Inv(s) && c < |s.cpus|
    ensures CpuOk(s, c)
  {
  }

  lemma DistinctOf(s: State)
    requires Inv(s)
    ensures Distinct(s)
    ensures s.waitLock.Some? ==> s.waitLock.value < |s.procs| && InWaitLock(s.procs[s.waitLock.value].pc)
  {
  }

  /** The parts of the invariant, put together. */
  lemma Assemble(s: State)
    requires INIT < |s.procs| && Alive(s.procs[INIT].state) && Distinct(s)
    requires forall p :: 0 <= p < |s.procs| ==> ProcOk(s, p)
    requires forall c :: 0 <= c < |s.cpus| ==> CpuOk(s, c)
    requires s.waitLock.Some? ==> s.waitLock.value < |s.procs| && InWaitLock(s.procs[s.waitLock.value].pc)
    requires s.reaped <= s.exited && forall i :: i in s.exited ==> i < s.nextpid
    ensures Inv(s)
  {
  }

  /** A step that changes only process p, keeping its identity and its family, and keeps
      it on its CPU, if it is on one. */
  lemma SelfStep(s: State, s': State, p: nat)
    requires Inv(s) && p < |s.procs| == |s'.procs| && s'.procs == s.procs[p := s'.procs[p]]
    requires s' == State(s'.procs, s.cpus, s'.waitLock, s'.nextpid, s.exited, s.reaped) && s.nextpid <= s'.nextpid
    requires var q, q' := s.procs[p], s'.procs[p];
             && q'.parent == q.parent && q'.pid == q.pid && (q'.state == UNUSED <==> q.state == UNUSED)
             && (Alive(q.state) ==> Alive(q'.state))
             && (Active(q.pc) ==> Active(q'.pc) && (q'.lock == None || q'.lock == Some(Self)))
             && (!Active(q.pc) ==> q'.lock == q.lock)
             && (forall np :: Forking(q'.pc, np) ==> Forking(q.pc, np))
             && (q.pc.Nascent? ==> q'.pc.Nascent?)
    requires ProcOk(s', p)
    requires s'.waitLock == if InWaitLock(s'.procs[p].pc) then Some(p)
                            else if InWaitLock(s.procs[p].pc) then None else s.waitLock
    requires InWaitLock(s'.procs[p].pc) && !InWaitLock(s.procs[p].pc) ==> s.waitLock == None
    ensures Inv(s')
  {
    hide Inv;
    hide Distinct;
    ProcOf(s, p);
    DistinctOf(s);
    forall x | 0 <= x < |s'.procs|
      ensures ProcOk(s', x)
    {
      ProcOf(s, x);
    }
    forall c | 0 <= c < |s'.cpus|
      ensures CpuOk(s', c)
    {
      CpuOf(s, c);
    }
    SelfDistinct(s, s', p);
    hide ProcOk;
    hide CpuOk;
    Assemble(s');
  }

  lemma SelfDistinct(s: State, s': State, p: nat)
    requires Distinct(s) && p < |s.procs| == |s'.procs| && s'.procs == s.procs[p := s'.procs[p]] && s'.cpus == s.cpus
    requires s'.procs[p].pid == s.procs[p].pid && (s'.procs[p].state == UNUSED <==> s.procs[p].state == UNUSED)
    requires forall np :: Forking(s'.procs[p].pc, np) ==> Forking(s.procs[p].pc, np)
    ensures Distinct(s')
  {
  }

  lemma WaitSteps(s: State, p: nat, a: Action, s': State)
    requires Inv(s) && Step(s, p, a, s') && (a.WaitGiveUp? || a.WaitFault? || a.WaitAgain?)
    ensures Inv(s')
  {
    hide Inv;
    ProcOf(s, p);
    SelfStep(s, s', p);
  }

  lemma WaitLockSteps(s: State, p: nat, a: Action, s': State)
    requires Inv(s) && Step(s, p, a, s') && (a.WaitStart? || a.ExitStart?)
    ensures Inv(s')
  {
    hide Inv;
    ProcOf(s, p);
    SelfStep(s, s', p);
  }

  lemma WaitSleepSteps(s: State, p: nat, a: Action, s': State)
    requires Inv(s) && Step(s, p, a, s') && (a.WaitSleepStart? || a.WaitDrop? || a.ExitRelease?)
    ensures Inv(s')
  {
    hide Inv;
    ProcOf(s, p);
    SelfStep(s, s', p);
  }

  lemma SleepSteps(s: State, p: nat, a: Action, s': State)
    requires Inv(s) && Step(s, p, a, s') && (a.SleepStart? || a.SleepMark?)
    ensures Inv(s')
  {
    hide Inv;
    ProcOf(s, p);
    SelfStep(s, s', p);
  }

  lemma YieldSteps(s: State, p: nat, a: Action, s': State)
    requires Inv(s) && Step(s, p, a, s') && (a.Yield? || a.Resume?)
    ensures Inv(s')
  {
    hide Inv;
    ProcOf(s, p);
    SelfStep(s, s', p);
  }

  lemma WakeupStep(s: State, p: nat, a: Action, s': State)
    requires Inv(s) && Step(s, p, a, s') && (a.Wakeup? || a.ForkFail?)
    ensures Inv(s')
  {
    hide Inv;
    ProcOf(s, p);
    DistinctOf(s);
    hide Distinct;
    WakeupProc(s, p, a, s');
    SelfStep(s, s', p);
  }

  lemma WakeupProc(s: State, p: nat, a: Action, s': State)
    requires Inv(s) && Step(s, p, a, s') && (a.Wakeup? || a.ForkFail?)
    ensures p < |s.procs| && ProcOk(s', p)
  {
    hide Inv;
    ProcOf(s, p);
  }

  lemma WaitLookOn(s: State, p: nat, a: Action, s': State)
    requires Inv(s) && Step(s, p, a, s') && a.WaitLook? && s'.reaped == s.reaped && s'.procs[p].pc.WaitScan?
    ensures Inv(s')
  {
    hide Inv;
    ProcOf(s, p);
    SelfStep(s, s', p);
  }

  /** Nobody moved onto or off a CPU. */
  lemma CpusKept(s: State, s': State)
    requires |s'.procs| == |s.procs| && s'.cpus == s.cpus
    requires forall c :: 0 <= c < |s.cpus| ==> CpuOk(s, c)
    requires forall x :: 0 <= x < |s.procs| ==>
               s'.procs[x].lock == s.procs[x].lock && (Active(s.procs[x].pc) <==> Active(s'.procs[x].pc))
    ensures forall c :: 0 <= c < |s'.cpus| ==> CpuOk(s', c)
  {
    forall c | 0 <= c < |s'.cpus|
      ensures CpuOk(s', c)
    {
      assert CpuOk(s, c);
    }
  }

  lemma FamilyDistinct(s: State, s': State)
    requires Distinct(s) && |s'.procs| == |s.procs| && s'.cpus == s.cpus
    requires forall x :: 0 <= x < |s.procs| ==>
               && s'.procs[x].pid == s.procs[x].pid && (s'.procs[x].state == UNUSED <==> s.procs[x].state == UNUSED)
    requires forall x, np :: 0 <= x < |s.procs| && Forking(s'.procs[x].pc, np) ==> Forking(s.procs[x].pc, np)
    ensures Distinct(s')
  {
  }

  /** A freshly allocated child has a pid and a slot that nobody else has. */
  lemma FreshChild(s: State, s': State, p: nat, np: nat)
    requires Inv(s) && p < |s.procs| == |s'.procs| && np < |s.procs| && s'.cpus == s.cpus
    requires forall x :: 0 <= x < |s.procs| && x != p && x != np ==> s'.procs[x] == s.procs[x]
    requires p != np && s.procs[np].pc.NoThread? && s.procs[p].pc.Run? && s'.procs[p] == s.procs[p].(pc := ForkUsed(np))
    requires s'.procs[np] == s.procs[np].(state := USED, pid := s.nextpid, pc := Nascent)
    ensures Distinct(s')
  {
    forall x | 0 <= x < |s.procs|
      ensures !Forking(s.procs[x].pc, np) && (s.procs[x].state != UNUSED ==> s.procs[x].pid != s.nextpid)
    {
      assert ProcOk(s, x);
    }
  }

  lemma ForkAllocProc(s: State, p: nat, a: Action, s': State, x: nat)
    requires Inv(s) && Step(s, p, a, s') && a.ForkAlloc? && x < |s.procs|
    ensures ProcOk(s', x)
  {
    hide Inv;
    ProcOf(s, p);
    ProcOf(s, x);
    ProcOf(s, a.np);
  }

  lemma ForkAllocStep(s: State, p: nat, a: Action, s': State)
    requires Inv(s) && Step(s, p, a, s') && a.ForkAlloc?
    ensures Inv(s')
  {
    hide Inv;
    var np := a.np;
    ProcOf(s, p);
    ProcOf(s, np);
    DistinctOf(s);
    hide Distinct;
    forall x | 0 <= x < |s'.procs|
      ensures ProcOk(s', x)
    {
      ForkAllocProc(s, p, a, s', x);
    }
    forall c | 0 <= c < |s.cpus|
      ensures CpuOk(s, c)
    {
      CpuOf(s, c);
    }
    CpusKept(s, s');
    FreshChild(s, s', p, np);
    hide ProcOk;
    hide CpuOk;
    Assemble(s');
  }

  lemma ForkLinkProc(s: State, p: nat, a: Action, s': State, x: nat)
    requires Inv(s) && Step(s, p, a, s') && a.ForkLink? && x < |s.procs|
    ensures ProcOk(s', x)
  {
    hide Inv;
    ProcOf(s, p);
    ProcOf(s, x);
    ProcOf(s, s.procs[p].pc.np);
  }

  lemma ForkLinkStep(s: State, p: nat, a: Action, s': State)
    requires Inv(s) && Step(s, p, a, s') && a.ForkLink?
    ensures Inv(s')
  {
    hide Inv;
    ProcOf(s, p);
    ProcOf(s, s.procs[p].pc.np);
    DistinctOf(s);
    hide Distinct;
    forall x | 0 <= x < |s'.procs|
      ensures ProcOk(s', x)
    {
      ForkLinkProc(s, p, a, s', x);
    }
    forall c | 0 <= c < |s.cpus|
      ensures CpuOk(s, c)
    {
      CpuOf(s, c);
    }
    CpusKept(s, s');
    FamilyDistinct(s, s');
    hide ProcOk;
    hide CpuOk;
    Assemble(s');
  }

  lemma ForkedOnce(s: State, p: nat, x: nat)
    requires Inv(s) && p < |s.procs| && x < |s.procs| && s.procs[p].pc.ForkLinked?
    ensures Forking(s.procs[x].pc, s.procs[p].pc.np) ==> x == p
  {
    hide Inv;
    DistinctOf(s);
    assert Forking(s.procs[p].pc, s.procs[p].pc.np);
  }

  lemma ForkReadyProc(s: State, p: nat, a: Action, s': State, x: nat)
    requires Inv(s) && Step(s, p, a, s') && a.ForkReady? && x < |s.procs|
    ensures ProcOk(s', x)
  {
    hide Inv;
    ProcOf(s, p);
    ForkedOnce(s, p, x);
    ProcOf(s, s.procs[p].pc.np);
    ProcOf(s, x);
  }

  lemma ForkReadyStep(s: State, p: nat, a: Action, s': State)
    requires Inv(s) && Step(s, p, a, s') && a.ForkReady?
    ensures Inv(s')
  {
    hide Inv;
    var np := s.procs[p].pc.np;
    ProcOf(s, p);
    ProcOf(s, np);
    DistinctOf(s);
    hide Distinct;
    forall x | 0 <= x < |s'.procs|
      ensures ProcOk(s', x)
    {
      ForkReadyProc(s, p, a, s', x);
    }
    forall c | 0 <= c < |s.cpus|
      ensures CpuOk(s, c)
    {
      CpuOf(s, c);
    }
    CpusKept(s, s');
    FamilyDistinct(s, s');
    hide ProcOk;
    hide CpuOk;
    Assemble(s');
  }

  lemma WokenInv(s: State, f: nat)
    requires Inv(s) && f < |s.procs| && s.procs[f].lock == None
    ensures Inv(WakeWaiter(s, f))
  {
    hide Inv;
    if WakeWaiter(s, f) != s {
      WakeupStep(s, f, Wakeup, WakeWaiter(s, f));
    }
  }

  ghost predicate Reparenting(s: State, p: nat, i: nat) {
    p < |s.procs| && i < |s.procs| && s.procs[p].pc == Exit(i) && s.procs[i].parent == Some(p)
  }

  lemma ReparentProc(s: State, p: nat, i: nat, x: nat)
    requires Inv(s) && Reparenting(s, p, i) && x < |s.procs|
    ensures ProcOk(Reparented(s, p, i), x)
  {
    hide Inv;
    ProcOf(s, p);
    ProcOf(s, x);
  }

  lemma ReparentInv(s: State, p: nat, i: nat)
    requires Inv(s) && Reparenting(s, p, i)
    ensures Inv(Reparented(s, p, i))
  {
    hide Inv;
    var s' := Reparented(s, p, i);
    ProcOf(s, p);
    DistinctOf(s);
    hide Distinct;
    forall x | 0 <= x < |s'.procs|
      ensures ProcOk(s', x)
    {
      ReparentProc(s, p, i, x);
    }
    forall c | 0 <= c < |s.cpus|
      ensures CpuOk(s, c)
    {
      CpuOf(s, c);
    }
    CpusKept(s, s');
    FamilyDistinct(s, s');
    hide ProcOk;
    hide CpuOk;
    Assemble(s');
  }

  /** The steps of exit() that change no other process. */
  lemma ExitOn(s: State, p: nat, pc: Pc)
    requires Inv(s) && p < |s.procs| && s.procs[p].pc.Exit? && s.procs[p].pc.i <= |s.procs|
    requires var i := s.procs[p].pc.i;
             if i < |s.procs| then pc == Exit(i + 1) && s.procs[i].parent != Some(p) else pc == ExitWoken
    ensures Inv(Go(s, p, pc))
  {
    hide Inv;
    ProcOf(s, p);
    SelfStep(s, Go(s, p, pc), p);
  }

  lemma ReparentStep(s: State, p: nat, a: Action, s': State)
    requires Inv(s) && Step(s, p, a, s') && (a.ExitReparent? || a.ExitWake?)
    ensures Inv(s')
  {
    hide Inv;
    ProcOf(s, p);
    hide ProcOk;
    var q := s.procs[p];
    if a.ExitReparent? && s.procs[q.pc.i].parent == Some(p) {
      WokenInv(s, INIT);
      ReparentInv(WakeWaiter(s, INIT), p, q.pc.i);
    } else if a.ExitWake? && q.parent.Some? && q.parent.value < |s.procs| {
      WokenInv(s, q.parent.value);
      ExitOn(WakeWaiter(s, q.parent.value), p, ExitWoken);
    } else {
      ExitOn(s, p, if a.ExitReparent? then Exit(q.pc.i + 1) else ExitWoken);
    }
  }

  lemma ExitMarkProc(s: State, p: nat, a: Action, s': State, x: nat)
    requires Inv(s) && Step(s, p, a, s') && a.ExitMark? && x < |s.procs|
    ensures ProcOk(s', x)
  {
    hide Inv;
    ProcOf(s, p);
    ProcOf(s, x);
    OtherPid(s, x, p);
  }

  lemma OtherPid(s: State, x: nat, p: nat)
    requires Inv(s) && x < |s.procs| && p < |s.procs|
    ensures x != p ==> !SamePid(s.procs[x], s.procs[p])
  {
    hide Inv;
    DistinctOf(s);
  }

  lemma ExitMarkStep(s: State, p: nat, a: Action, s': State)
    requires Inv(s) && Step(s, p, a, s') && a.ExitMark?
    ensures Inv(s')
  {
    hide Inv;
    ProcOf(s, p);
    DistinctOf(s);
    hide Distinct;
    forall x | 0 <= x < |s'.procs|
      ensures ProcOk(s', x)
    {
      ExitMarkProc(s, p, a, s', x);
    }
    forall c | 0 <= c < |s'.cpus|
      ensures CpuOk(s', c)
    {
      CpuOf(s, c);
    }
    SelfDistinct(s, s', p);
    hide ProcOk;
    hide CpuOk;
    Assemble(s');
  }

  /** A zombie with its lock free is on no CPU and nobody's parent. */
  lemma ZombieIsQuiet(s: State, p: nat)
    requires Inv(s) && p < |s.procs| && s.procs[p].state == ZOMBIE && s.procs[p].lock == None
    ensures s.procs[p].pc.Dead? && p != INIT
    ensures forall c :: 0 <= c < |s.cpus| ==> s.cpus[c] != Some(p)
    ensures forall x :: 0 <= x < |s.procs| ==> s.procs[x].parent != Some(p)
    ensures s.procs[p].pid in s.exited && s.procs[p].pid !in s.reaped
  {
    assert ProcOk(s, p);
    forall c | 0 <= c < |s.cpus|
      ensures s.cpus[c] != Some(p)
    {
      assert CpuOk(s, c);
    }
    forall x | 0 <= x < |s.procs|
      ensures s.procs[x].parent != Some(p)
    {
      assert ProcOk(s, x);
    }
  }

  /** What wait() changes when it frees a zombie. */
  lemma ReapFrame(s: State, p: nat, a: Action, s': State)
    requires Step(s, p, a, s') && a.WaitLook? && !s'.procs[p].pc.WaitScan?
    ensures s.procs[p].pc.WaitScan? && s.procs[p].pc.i < |s.procs|
    ensures var i := s.procs[p].pc.i;
            && s.procs[i].parent == Some(p) && s.procs[i].lock == None && s.procs[i].state == ZOMBIE
            && |s'.procs| == |s.procs| && s'.procs[p].pc == Run
            && (i != p ==> s'.procs == s.procs[i := Proc(UNUSED, None, 0, None, NoThread)]
                                             [p := s.procs[p].(pc := Run)])
            && s' == State(s'.procs, s.cpus, None, s.nextpid, s.exited, s.reaped + {s.procs[i].pid})
  {
  }

  /** What matters of a zombie to process x. */
  lemma ZombieFor(s: State, i: nat, x: nat)
    requires Inv(s) && i < |s.procs| && x < |s.procs| && s.procs[i].state == ZOMBIE && s.procs[i].lock == None
    ensures s.procs[i].pc.Dead? && i != INIT && s.procs[x].parent != Some(i)
    ensures s.procs[i].pid in s.exited && s.procs[i].pid !in s.reaped
    ensures x != i && s.procs[x].state != UNUSED && s.procs[i].state != UNUSED ==> s.procs[x].pid != s.procs[i].pid
  {
    hide Inv;
    ZombieIsQuiet(s, i);
    OtherPid(s, x, i);
  }

  lemma ReapOther(s: State, p: nat, a: Action, s': State, x: nat)
    requires Inv(s) && Step(s, p, a, s') && a.WaitLook? && !s'.procs[p].pc.WaitScan? && x < |s.procs|
    requires x != p && x != s.procs[p].pc.i
    ensures ProcOk(s', x)
  {
    hide Inv;
    ReapFrame(s, p, a, s');
    hide Step;
    ZombieFor(s, s.procs[p].pc.i, x);
    ProcOf(s, p);
    ProcOf(s, x);
  }

  lemma ReapProc(s: State, p: nat, a: Action, s': State, x: nat)
    requires Inv(s) && Step(s, p, a, s') && a.WaitLook? && !s'.procs[p].pc.WaitScan? && x < |s.procs|
    ensures ProcOk(s', x)
  {
    hide Inv;
    ReapFrame(s, p, a, s');
    var i := s.procs[p].pc.i;
    if x != p && x != i {
      ReapOther(s, p, a, s', x);
    } else {
      hide Step;
      ZombieFor(s, i, p);
      ProcOf(s, p);
    }
  }

  lemma ReapDistinct(s: State, p: nat, a: Action, s': State)
    requires Distinct(s) && Step(s, p, a, s') && a.WaitLook? && !s'.procs[p].pc.WaitScan?
    ensures Distinct(s')
  {
  }

  lemma ReapStep(s: State, p: nat, a: Action, s': State)
    requires Inv(s) && Step(s, p, a, s') && a.WaitLook? && !s'.procs[p].pc.WaitScan?
    ensures Inv(s')
  {
    hide Inv;
    var i := s.procs[p].pc.i;
    ProcOf(s, p);
    ZombieIsQuiet(s, i);
    DistinctOf(s);
    hide Distinct;
    forall x | 0 <= x < |s'.procs|
      ensures ProcOk(s', x)
    {
      ReapProc(s, p, a, s', x);
    }
    forall c | 0 <= c < |s'.cpus|
      ensures CpuOk(s', c)
    {
      CpuOf(s, c);
    }
    ReapDistinct(s, p, a, s');
    hide ProcOk;
    hide CpuOk;
    Assemble(s');
  }

  lemma SwitchProc(s: State, p: nat, a: Action, s': State, x: nat)
    requires Inv(s) && Step(s, p, a, s') && a.Switch? && x < |s.procs|
    ensures ProcOk(s', x)
  {
    hide Inv;
    ProcOf(s, p);
    ProcOf(s, x);
  }

  lemma SwitchCpus(s: State, p: nat, a: Action, s': State)
    requires Inv(s) && Step(s, p, a, s') && a.Switch?
    ensures forall c :: 0 <= c < |s'.cpus| ==> CpuOk(s', c)
  {
    hide Inv;
    DistinctOf(s);
    ProcOf(s, p);
    forall c | 0 <= c < |s'.cpus|
      ensures CpuOk(s', c)
    {
      CpuOf(s, c);
    }
  }

  lemma SwitchStep(s: State, p: nat, a: Action, s': State)
    requires Inv(s) && Step(s, p, a, s') && a.Switch?
    ensures Inv(s')
  {
    hide Inv;
    ProcOf(s, p);
    DistinctOf(s);
    hide Distinct;
    forall x | 0 <= x < |s'.procs|
      ensures ProcOk(s', x)
    {
      SwitchProc(s, p, a, s', x);
    }
    SwitchCpus(s, p, a, s');
    SelfDistinct(s, s', p);
    hide ProcOk;
    hide CpuOk;
    Assemble(s');
  }

  lemma CpuRunProc(s: State, p: nat, a: Action, s': State, x: nat)
    requires Inv(s) && Step(s, p, a, s') && a.CpuRun? && x < |s.procs|
    ensures ProcOk(s', x)
  {
    hide Inv;
    ProcOf(s, p);
    ProcOf(s, x);
    assert s'.cpus[a.c] == Some(p);
    if x != p && Active(s.procs[x].pc) {
      var d :| 0 <= d < |s.cpus| && s.cpus[d] == Some(x);
      assert s'.cpus[d] == Some(x);
    }
  }

  lemma CpuRunCpus(s: State, p: nat, a: Action, s': State)
    requires Inv(s) && Step(s, p, a, s') && a.CpuRun?
    ensures forall c :: 0 <= c < |s'.cpus| ==> CpuOk(s', c)
  {
    hide Inv;
    ProcOf(s, p);
    DistinctOf(s);
    forall c | 0 <= c < |s'.cpus|
      ensures CpuOk(s', c)
    {
      CpuOf(s, c);
    }
  }

  lemma CpuRunDistinct(s: State, p: nat, a: Action, s': State)
    requires Inv(s) && Step(s, p, a, s') && a.CpuRun?
    ensures Distinct(s')
  {
    hide Inv;
    ProcOf(s, p);
    DistinctOf(s);
    forall c | 0 <= c < |s.cpus|
      ensures s.cpus[c] != Some(p)
    {
      CpuOf(s, c);
    }
    hide ProcOk;
  }

  lemma CpuRunStep(s: State, p: nat, a: Action, s': State)
    requires Inv(s) && Step(s, p, a, s') && a.CpuRun?
    ensures Inv(s')
  {
    hide Inv;
    ProcOf(s, p);
    DistinctOf(s);
    hide Distinct;
    forall x | 0 <= x < |s'.procs|
      ensures ProcOk(s', x)
    {
      CpuRunProc(s, p, a, s', x);
    }
    CpuRunCpus(s, p, a, s');
    CpuRunDistinct(s, p, a, s');
    hide ProcOk;
    hide CpuOk;
    Assemble(s');
  }

  lemma CpuReleaseProc(s: State, p: nat, a: Action, s': State, x: nat)
    requires Inv(s) && Step(s, p, a, s') && a.CpuRelease? && x < |s.procs|
    ensures ProcOk(s', x)
  {
    hide Inv;
    ProcOf(s, p);
    ProcOf(s, x);
    if x != p && Active(s.procs[x].pc) {
      var d :| 0 <= d < |s.cpus| && s.cpus[d] == Some(x);
      assert s'.cpus[d] == Some(x);
    }
  }

  lemma CpuReleaseCpus(s: State, p: nat, a: Action, s': State)
    requires Inv(s) && Step(s, p, a, s') && a.CpuRelease?
    ensures forall c :: 0 <= c < |s'.cpus| ==> CpuOk(s', c)
  {
    hide Inv;
    ProcOf(s, p);
    DistinctOf(s);
    forall c | 0 <= c < |s'.cpus|
      ensures CpuOk(s', c)
    {
      CpuOf(s, c);
    }
  }

  lemma CpuReleaseDistinct(s: State, p: nat, a: Action, s': State)
    requires Inv(s) && Step(s, p, a, s') && a.CpuRelease?
    ensures Distinct(s')
  {
    hide Inv;
    DistinctOf(s);
    hide ProcOk;
    hide CpuOk;
  }

  lemma CpuReleaseStep(s: State, p: nat, a: Action, s': State)
    requires Inv(s) && Step(s, p, a, s') && a.CpuRelease?
    ensures Inv(s')
  {
    hide Inv;
    ProcOf(s, p);
    DistinctOf(s);
    hide Distinct;
    forall x | 0 <= x < |s'.procs|
      ensures ProcOk(s', x)
    {
      CpuReleaseProc(s, p, a, s', x);
    }
    CpuReleaseCpus(s, p, a, s');
    CpuReleaseDistinct(s, p, a, s');
    hide ProcOk;
    hide CpuOk;
    Assemble(s');
  }

  /** Every step of every process, scheduler and waker keeps the invariant. */
  lemma StepKeeps(s: State, p: nat, a: Action, s': State)
    requires Inv(s) && Step(s, p, a, s')
    ensures Inv(s')
  {
    hide Inv;
    match a
    case ForkAlloc(_) => ForkAllocStep(s, p, a, s');
    case ForkLink => ForkLinkStep(s, p, a, s');
    case ForkReady => ForkReadyStep(s, p, a, s');
    case ExitReparent => ReparentStep(s, p, a, s');
    case ExitWake => ReparentStep(s, p, a, s');
    case ExitMark => ExitMarkStep(s, p, a, s');
    case WaitLook =>
      if s'.procs[p].pc.WaitScan? {
        WaitLookOn(s, p, a, s');
      } else {
        ReapStep(s, p, a, s');
      }
    case Switch(_) => SwitchStep(s, p, a, s');
    case CpuRun(_) => CpuRunStep(s, p, a, s');
    case CpuRelease(_) => CpuReleaseStep(s, p, a, s');
    case ForkFail => WakeupStep(s, p, a, s');
    case SleepStart => SleepSteps(s, p, a, s');
    case SleepMark => SleepSteps(s, p, a, s');
    case Yield => YieldSteps(s, p, a, s');
    case Resume => YieldSteps(s, p, a, s');
    case Wakeup => WakeupStep(s, p, a, s');
    case WaitSleepStart => WaitSleepSteps(s, p, a, s');
    case WaitDrop => WaitSleepSteps(s, p, a, s');
    case ExitRelease => WaitSleepSteps(s, p, a, s');
    case WaitStart => WaitLockSteps(s, p, a, s');
    case ExitStart => WaitLockSteps(s, p, a, s');
    case _ => WaitSteps(s, p, a, s');
  }

  // ---------------------------------------------------------------- whole runs

  datatype Event = Event(p: nat, a: Action)

  ghost predicate StepAt(ss: seq<State>, es: seq<Event>, i: nat)
    requires i < |es| && |ss| == |es| + 1
  {
    Step(ss[i], es[i].p, es[i].a, ss[i + 1])
  }

  ghost predicate IsRun(ss: seq<State>, es: seq<Event>) {
    && |ss| == |es| + 1 && Init(ss[0])
    && forall i :: 0 <= i < |es| ==> StepAt(ss, es, i)
  }

  lemma {:induction false} RunInv(ss: seq<State>, es: seq<Event>, i: nat)
    requires IsRun(ss, es) && i < |ss|
    ensures Inv(ss[i])
  {
    if i == 0 {
      InitInv(ss[0]);
    } else {
      RunInv(ss, es, i - 1);
      assert StepAt(ss, es, i - 1);
      StepKeeps(ss[i - 1], es[i - 1].p, es[i - 1].a, ss[i]);
    }
  }

  ghost predicate CurrentOn(s: State, c: int, p: nat) { 0 <= c < |s.cpus| && s.cpus[c] == Some(p) }

  /** While p->lock is free, p is RUNNING exactly when some CPU has it as its current
      process; and no process is ever current on two CPUs, whatever the locks. */
  lemma RunningIffCurrent(ss: seq<State>, es: seq<Event>, i: nat, p: nat)
    requires IsRun(ss, es) && i < |ss| && p < |ss[i].procs|
    ensures var s := ss[i];
            && (s.procs[p].lock == None ==> (s.procs[p].state == RUNNING <==> exists c :: CurrentOn(s, c, p)))
            && (forall c, d :: CurrentOn(s, c, p) && CurrentOn(s, d, p) ==> c == d)
  {
    RunInv(ss, es, i);
    var s := ss[i];
    assert ProcOk(s, p);
    if Active(s.procs[p].pc) {
      var c :| 0 <= c < |s.cpus| && s.cpus[c] == Some(p);
      assert CurrentOn(s, c, p);
    }
    forall c | CurrentOn(s, c, p)
      ensures Active(s.procs[p].pc) || s.procs[p].lock.Some?
    {
      assert CpuOk(s, c);
    }
  }

  /** Every parent pointer names a process that is neither unused nor a zombie. */
  lemma ParentsAlive(ss: seq<State>, es: seq<Event>, i: nat, p: nat)
    requires IsRun(ss, es) && i < |ss| && p < |ss[i].procs| && ss[i].procs[p].parent.Some?
    ensures var s := ss[i]; var q := s.procs[p].parent.value;
            q < |s.procs| && s.procs[q].state != UNUSED && s.procs[q].state != ZOMBIE && s.procs[p].state != UNUSED
  {
    RunInv(ss, es, i);
    assert ProcOk(ss[i], p);
  }

  /** What wait() frees is a zombie child of the caller that no CPU is still running on,
      that has no children left, and that has never been freed before. */
  lemma ReapsEachZombieOnce(ss: seq<State>, es: seq<Event>, i: nat)
    requires IsRun(ss, es) && i < |es| && ss[i + 1].reaped != ss[i].reaped
    ensures es[i].p < |ss[i].procs| && ss[i].procs[es[i].p].pc.WaitScan? && ss[i].procs[es[i].p].pc.i < |ss[i].procs|
    ensures var s, z := ss[i], ss[i].procs[es[i].p].pc.i;
            && s.procs[z].state == ZOMBIE && s.procs[z].parent == Some(es[i].p)
            && (forall c :: 0 <= c < |s.cpus| ==> s.cpus[c] != Some(z))
            && (forall x :: 0 <= x < |s.procs| ==> s.procs[x].parent != Some(z))
            && s.procs[z].pid in s.exited && s.procs[z].pid !in s.reaped
            && ss[i + 1].reaped == s.reaped + {s.procs[z].pid} 
            && |ss[i + 1].procs| == |s.procs| && ss[i + 1].procs[z].state == UNUSED
  {
    RunInv(ss, es, i);
    assert StepAt(ss, es, i);
    assert es[i].a.WaitLook?;
    assert ProcOk(ss[i], es[i].p);
    ZombieIsQuiet(ss[i], ss[i].procs[es[i].p].pc.i);
  }
}
