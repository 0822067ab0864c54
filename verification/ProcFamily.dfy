/** Parents and children in every run of ProcLife: whose child a process is, what the scan of
    wait() finds, and that nobody sleeps in wait() over a child that has exited. */
module ProcFamily {
  import opened Options
  import opened ProcLife

  // ---------------------------------------------------------------- the scan and the sleep of wait()

  predicate Kid(s: State, f: nat, j: nat) { j < |s.procs| && s.procs[j].parent == Some(f) }

  /** A process of which exit() has already woken the parent. */
  predicate Dying(q: Proc) { q.state == ZOMBIE || q.pc.ExitWoken? }

  /** A process that has found no zombie among its children and sleeps, or is about to. */
  predicate Napping(q: Proc) {
    || q.pc.WaitSleep? || q.pc == SleepHeld(true)
    || ((q.pc == SwitchOut(true) || q.pc == Away(true)) && q.state == SLEEPING)
  }

  ghost predicate NoneDying(s: State, f: nat, n: nat) {
    forall j :: 0 <= j < n && Kid(s, f, j) ==> !Dying(s.procs[j])
  }

  ghost predicate KidBelow(s: State, f: nat, n: nat) {
    exists j :: 0 <= j < n && Kid(s, f, j)
  }

  /** havekids says whether there was a child among the slots that wait() has passed, none of those
      has exited, and none has when the process goes to sleep. */
  ghost predicate WaitOk(s: State, f: nat)
    requires f < |s.procs|
  {
    var pc := s.procs[f].pc;
    && (pc.WaitScan? ==> pc.i <= |s.procs| && (pc.kids <==> KidBelow(s, f, pc.i)) && NoneDying(s, f, pc.i))
    && (Napping(s.procs[f]) ==> NoneDying(s, f, |s.procs|))
  }

  /** Only the holder of wait_lock is between exit()'s wakeup and its end, or in a scan. */
  lemma LockedOut(s: State, f: nat, x: nat)
    requires Inv(s) && f < |s.procs| && x < |s.procs| && InWaitLock(s.procs[f].pc) && InWaitLock(s.procs[x].pc)
    ensures f == x
  {
    hide Inv;
    ProcOf(s, f);
    ProcOf(s, x);
  }

  /** Where the same processes have the same parents, and no more of them are dying. */
  lemma SameKids(s: State, s': State, f: nat, n: nat)
    requires |s'.procs| == |s.procs|
    requires forall j :: 0 <= j < |s.procs| ==>
               s'.procs[j].parent == s.procs[j].parent && (Kid(s, f, j) && Dying(s'.procs[j]) ==> Dying(s.procs[j]))
    ensures KidBelow(s', f, n) <==> KidBelow(s, f, n)
    ensures NoneDying(s, f, n) ==> NoneDying(s', f, n)
  {
    if j :| 0 <= j < n && Kid(s, f, j) {
      assert Kid(s', f, j);
    }
    if j :| 0 <= j < n && Kid(s', f, j) {
      assert Kid(s, f, j);
    }
  }

  /** A step that changes process p alone, and not its parent. */
  lemma OwnChange(s: State, s': State, p: nat, f: nat)
    requires p < |s.procs| == |s'.procs| && f < |s.procs| && s'.procs == s.procs[p := s'.procs[p]] && WaitOk(s, f)
    requires var q, q' := s.procs[p], s'.procs[p];
             && q'.parent == q.parent && (Dying(q') ==> Dying(q))
             && (q'.pc.WaitScan? ==> q'.pc == WaitScan(0, false) || q'.pc == q.pc)
             && (Napping(q') ==> Napping(q) || (q.pc.WaitScan? && q.pc.i == |s.procs|))
    ensures WaitOk(s', f)
  {
    SameKids(s, s', f, |s.procs|);
    if s.procs[f].pc.WaitScan? {
      SameKids(s, s', f, s.procs[f].pc.i);
    }
  }

  lemma OwnSteps(s: State, p: nat, a: Action, s': State, f: nat)
    requires Inv(s) && Step(s, p, a, s') && f < |s.procs| && WaitOk(s, f)
    requires a.ForkFail? || a.ExitStart? || a.ExitMark? || a.ExitRelease?
             || a.WaitStart? || a.WaitFault? || a.WaitGiveUp?
    ensures f < |s'.procs| && WaitOk(s', f)
  {
    hide Inv;
    hide WaitOk;
    ProcOf(s, p);
    OwnChange(s, s', p, f);
  }

  lemma SleepSteps(s: State, p: nat, a: Action, s': State, f: nat)
    requires Inv(s) && Step(s, p, a, s') && f < |s.procs| && WaitOk(s, f)
    requires a.WaitSleepStart? || a.WaitDrop? || a.WaitAgain? || a.SleepStart? || a.SleepMark? || a.Yield?
    ensures f < |s'.procs| && WaitOk(s', f)
  {
    hide Inv;
    hide WaitOk;
    ProcOf(s, p);
    OwnChange(s, s', p, f);
  }

  lemma SchedSteps(s: State, p: nat, a: Action, s': State, f: nat)
    requires Inv(s) && Step(s, p, a, s') && f < |s.procs| && WaitOk(s, f)
    requires a.Switch? || a.Resume? || a.CpuRun? || a.CpuRelease? || a.Wakeup?
    ensures f < |s'.procs| && WaitOk(s', f)
  {
    hide Inv;
    hide WaitOk;
    ProcOf(s, p);
    OwnChange(s, s', p, f);
  }

  /** wait() passes a slot. */
  lemma PassSlot(s: State, p: nat, a: Action, s': State)
    requires Inv(s) && Step(s, p, a, s') && a.WaitLook? && WaitOk(s, p) && s'.procs[p].pc.WaitScan?
    ensures WaitOk(s', p)
  {
    hide Inv;
    var i := s.procs[p].pc.i;
    if s.procs[i].pc.ExitWoken? {
      LockedOut(s, p, i);
    }
    SameKids(s, s', p, i);
    SameKids(s, s', p, i + 1);
    assert KidBelow(s, p, i + 1) <==> KidBelow(s, p, i) || Kid(s, p, i);
  }

  lemma LookStep(s: State, p: nat, a: Action, s': State, f: nat)
    requires Inv(s) && Step(s, p, a, s') && a.WaitLook? && f < |s.procs| && WaitOk(s, f)
    ensures f < |s'.procs| && WaitOk(s', f)
  {
    hide Inv;
    if f == p && s'.procs[p].pc.WaitScan? {
      PassSlot(s, p, a, s');
    } else if f != p && s.procs[f].pc.WaitScan? {
      LockedOut(s, f, p);
    } else if f != p {
      assert forall j :: Kid(s', f, j) ==> Kid(s, f, j);
    }
  }

  lemma ForkFrame(s: State, p: nat, a: Action, s': State)
    requires Inv(s) && Step(s, p, a, s') && (a.ForkAlloc? || a.ForkReady?)
    ensures |s'.procs| == |s.procs|
    ensures forall j :: 0 <= j < |s.procs| ==>
              && s'.procs[j].parent == s.procs[j].parent && (Dying(s'.procs[j]) ==> Dying(s.procs[j]))
              && (s'.procs[j].pc.WaitScan? ==> s'.procs[j].pc == s.procs[j].pc)
              && (Napping(s'.procs[j]) ==> Napping(s.procs[j]))
  {
    hide Inv;
    ProcOf(s, p);
    ProcOf(s, if a.ForkAlloc? then a.np else s.procs[p].pc.np);
    hide ProcOk;
  }

  lemma ForkSteps(s: State, p: nat, a: Action, s': State, f: nat)
    requires Inv(s) && Step(s, p, a, s') && (a.ForkAlloc? || a.ForkReady?) && f < |s.procs| && WaitOk(s, f)
    ensures f < |s'.procs| && WaitOk(s', f)
  {
    hide Inv;
    ForkFrame(s, p, a, s');
    hide Step;
    SameKids(s, s', f, |s.procs|);
    if s.procs[f].pc.WaitScan? {
      SameKids(s, s', f, s.procs[f].pc.i);
    }
  }

  lemma LinkStep(s: State, p: nat, a: Action, s': State, f: nat)
    requires Inv(s) && Step(s, p, a, s') && a.ForkLink? && f < |s.procs| && WaitOk(s, f)
    ensures f < |s'.procs| && WaitOk(s', f)
  {
    hide Inv;
    ProcOf(s, p);
    ProcOf(s, f);
    assert f != p ==> forall j :: Kid(s', f, j) ==> Kid(s, f, j);
  }

  /** reparent() hands a child to init, which it wakes if asleep. */
  lemma TakeOverFrame(s: State, p: nat, a: Action, s': State)
    requires Inv(s) && Step(s, p, a, s') && a.ExitReparent? && s.procs[s.procs[p].pc.i].parent == Some(p)
    ensures |s'.procs| == |s.procs| && s.procs[p].pc.Exit? && s'.procs[p].pc.Exit? && p != INIT
    ensures INIT < |s.procs| && !Napping(s'.procs[INIT])
    ensures forall j :: 0 <= j < |s.procs| ==>
              && (s'.procs[j].parent == s.procs[j].parent || s'.procs[j].parent == Some(INIT))
              && (j != p ==> s'.procs[j].pc == s.procs[j].pc)
              && (Dying(s'.procs[j]) ==> Dying(s.procs[j])) && (Napping(s'.procs[j]) ==> Napping(s.procs[j]))
  {
    hide Inv;
    ProcOf(s, p);
    ProcOf(s, INIT);
    hide ProcOk;
  }

  lemma TakeOverStep(s: State, p: nat, a: Action, s': State, f: nat)
    requires Inv(s) && Step(s, p, a, s') && a.ExitReparent? && f < |s.procs| && WaitOk(s, f)
    ensures f < |s'.procs| && WaitOk(s', f)
  {
    hide Inv;
    if s.procs[s.procs[p].pc.i].parent != Some(p) {
      ProcOf(s, p);
      OwnChange(s, s', p, f);
    } else {
      TakeOverFrame(s, p, a, s');
      TakenOver(s, s', p, f);
    }
  }

  lemma TakenOver(s: State, s': State, p: nat, f: nat)
    requires Inv(s) && p < |s.procs| == |s'.procs| && s.procs[p].pc.Exit? && s'.procs[p].pc.Exit? && p != INIT
    requires INIT < |s.procs| && !Napping(s'.procs[INIT]) && f < |s.procs| && WaitOk(s, f)
    requires forall j :: 0 <= j < |s.procs| ==>
               && (s'.procs[j].parent == s.procs[j].parent || s'.procs[j].parent == Some(INIT))
               && (j != p ==> s'.procs[j].pc == s.procs[j].pc)
               && (Dying(s'.procs[j]) ==> Dying(s.procs[j])) && (Napping(s'.procs[j]) ==> Napping(s.procs[j]))
    ensures WaitOk(s', f)
  {
    hide Inv;
    if s.procs[f].pc.WaitScan? {
      LockedOut(s, f, p);
    }
    assert f != INIT ==> forall j :: Kid(s', f, j) ==> Kid(s, f, j);
  }

  /** exit() wakes the parent if it is asleep in wait(). */
  lemma WakeFrame(s: State, p: nat, a: Action, s': State)
    requires Inv(s) && Step(s, p, a, s') && a.ExitWake?
    ensures |s'.procs| == |s.procs| && s.procs[p].pc.Exit? && s'.procs[p].pc.ExitWoken?
    ensures forall f :: 0 <= f < |s.procs| && Kid(s, f, p) ==> !Napping(s'.procs[f])
    ensures forall j :: 0 <= j < |s.procs| ==>
              && s'.procs[j].parent == s.procs[j].parent && (j != p ==> s'.procs[j].pc == s.procs[j].pc)
              && (j != p && Dying(s'.procs[j]) ==> Dying(s.procs[j]))
              && (Napping(s'.procs[j]) ==> Napping(s.procs[j]))
  {
    hide Inv;
    ProcOf(s, p);
    if s.procs[p].parent.Some? {
      ProcOf(s, s.procs[p].parent.value);
    }
    hide ProcOk;
  }

  lemma WakeStep(s: State, p: nat, a: Action, s': State, f: nat)
    requires Inv(s) && Step(s, p, a, s') && a.ExitWake? && f < |s.procs| && WaitOk(s, f)
    ensures f < |s'.procs| && WaitOk(s', f)
  {
    hide Inv;
    WakeFrame(s, p, a, s');
    hide Step;
    if s.procs[f].pc.WaitScan? {
      LockedOut(s, f, p);
    } else if !Kid(s, f, p) {
      SameKids(s, s', f, |s.procs|);
    }
  }

  lemma WaitStepFor(s: State, p: nat, a: Action, s': State, f: nat)
    requires Inv(s) && Step(s, p, a, s') && f < |s.procs| && WaitOk(s, f)
    ensures f < |s'.procs| && WaitOk(s', f)
  {
    hide Inv;
    hide Step;
    hide WaitOk;
    match a
    case WaitLook => LookStep(s, p, a, s', f);
    case ForkAlloc(_) => ForkSteps(s, p, a, s', f);
    case ForkReady => ForkSteps(s, p, a, s', f);
    case ForkLink => LinkStep(s, p, a, s', f);
    case ExitReparent => TakeOverStep(s, p, a, s', f);
    case ExitWake => WakeStep(s, p, a, s', f);
    case ForkFail => OwnSteps(s, p, a, s', f);
    case ExitStart => OwnSteps(s, p, a, s', f);
    case ExitMark => OwnSteps(s, p, a, s', f);
    case ExitRelease => OwnSteps(s, p, a, s', f);
    case WaitStart => OwnSteps(s, p, a, s', f);
    case WaitFault => OwnSteps(s, p, a, s', f);
    case WaitGiveUp => OwnSteps(s, p, a, s', f);
    case Switch(_) => SchedSteps(s, p, a, s', f);
    case Resume => SchedSteps(s, p, a, s', f);
    case CpuRun(_) => SchedSteps(s, p, a, s', f);
    case CpuRelease(_) => SchedSteps(s, p, a, s', f);
    case Wakeup => SchedSteps(s, p, a, s', f);
    case _ => SleepSteps(s, p, a, s', f);
  }

  lemma SlotsStay(s: State, p: nat, a: Action, s': State)
    requires Step(s, p, a, s')
    ensures |s'.procs| == |s.procs|
  {
  }

  lemma {:induction false} WaitRun(ss: seq<State>, es: seq<Event>, i: nat, f: nat)
    requires IsRun(ss, es) && i < |ss| && f < |ss[i].procs|
    ensures WaitOk(ss[i], f)
  {
    hide Step;
    hide WaitOk;
    if i == 0 {
      WaitStart(ss[0], f);
    } else {
      assert StepAt(ss, es, i - 1);
      SlotsStay(ss[i - 1], es[i - 1].p, es[i - 1].a, ss[i]);
      WaitRun(ss, es, i - 1, f);
      RunInv(ss, es, i - 1);
      WaitStepFor(ss[i - 1], es[i - 1].p, es[i - 1].a, ss[i], f);
    }
  }

  lemma WaitStart(s: State, f: nat)
    requires Init(s) && f < |s.procs|
    ensures WaitOk(s, f)
  {
  }

  /** wait() that comes to the end of the table has seen a child exactly if there is one, and none of
      its children has exited: it returns -1 for want of children only to a process that has none. */
  lemma ScanEnds(ss: seq<State>, es: seq<Event>, i: nat, p: nat)
    requires IsRun(ss, es) && i < |ss| && p < |ss[i].procs|
    requires ss[i].procs[p].pc.WaitScan? && ss[i].procs[p].pc.i == |ss[i].procs|
    ensures var s := ss[i];
            && (s.procs[p].pc.kids <==> exists j :: 0 <= j < |s.procs| && s.procs[j].parent == Some(p))
            && (forall j :: 0 <= j < |s.procs| && s.procs[j].parent == Some(p) ==> s.procs[j].state != ZOMBIE)
  {
    var s := ss[i];
    WaitRun(ss, es, i, p);
    hide IsRun;
    if j :| 0 <= j < |s.procs| && s.procs[j].parent == Some(p) {
      assert Kid(s, p, j);
    }
    forall j | 0 <= j < |s.procs| && s.procs[j].parent == Some(p)
      ensures s.procs[j].state != ZOMBIE
    {
      assert Kid(s, p, j);
    }
  }

  /** No process sleeps in wait() while it has a zombie for a child: exit() and reparent() wake it
      before they let go of wait_lock, and it looks at no child between its scan and its sleep. */
  lemma NoSleepOverZombie(ss: seq<State>, es: seq<Event>, i: nat, p: nat, z: nat)
    requires IsRun(ss, es) && i < |ss| && p < |ss[i].procs| && z < |ss[i].procs|
    requires ss[i].procs[p].state == SLEEPING && ss[i].procs[z].parent == Some(p) && ss[i].procs[z].state == ZOMBIE
    ensures ss[i].procs[p].pc == Away(false) || ss[i].procs[p].pc == SwitchOut(false)
  {
    WaitRun(ss, es, i, p);
    RunInv(ss, es, i);
    hide IsRun;
    ProcOf(ss[i], p);
    assert Kid(ss[i], p, z);
  }

  // ---------------------------------------------------------------- whose child a process is

  /** Slot np still has the process with this pid in it. */
  predicate Lives(s: State, np: nat, pid: nat) {
    np < |s.procs| && s.procs[np].state != UNUSED && s.procs[np].pid == pid
  }

  /** Step k is the one in which fork() in slot f sets the parent of slot np. */
  ghost predicate Links(ss: seq<State>, es: seq<Event>, k: nat, f: nat, np: nat)
    requires k < |es| && |ss| == |es| + 1
  {
    LinkStepOf(ss[k], es[k].p, es[k].a, f, np)
  }

  predicate LinkStepOf(s: State, p: nat, a: Action, f: nat, np: nat) {
    a.ForkLink? && p == f && f < |s.procs| && s.procs[f].pc == ForkUsed(np)
  }

  /** Step k is the one in which reparent() in slot f comes to slot np. */
  ghost predicate Leaves(ss: seq<State>, es: seq<Event>, k: nat, f: nat, np: nat)
    requires k < |es| && |ss| == |es| + 1
  {
    LeaveStepOf(ss[k], es[k].p, es[k].a, f, np)
  }

  predicate LeaveStepOf(s: State, p: nat, a: Action, f: nat, np: nat) {
    a.ExitReparent? && p == f && f < |s.procs| && s.procs[f].pc == Exit(np)
  }

  /** What holds of slot np after slot f has allocated it for the process with this pid. */
  ghost predicate Bond(s: State, f: nat, np: nat, pid: nat, linked: bool, left: bool) {
    && f < |s.procs| && np < |s.procs| && f != np && pid < s.nextpid
    && (Lives(s, np, pid) ==>
          && (s.procs[np].pc.Nascent? ==> Forking(s.procs[f].pc, np))
          && (linked <==> s.procs[f].pc != ForkUsed(np)) && (left ==> linked)
          && s.procs[np].parent == if !linked then None else if left then Some(INIT) else Some(f))
  }

  lemma BondLink(s: State, p: nat, a: Action, s': State, f: nat, np: nat, pid: nat, linked: bool, left: bool)
    requires Inv(s) && Step(s, p, a, s') && a.ForkLink? && Bond(s, f, np, pid, linked, left)
    ensures Bond(s', f, np, pid, linked || LinkStepOf(s, p, a, f, np), left)
  {
    hide Inv;
    ProcOf(s, p);
    DistinctOf(s);
    assert Forking(s.procs[p].pc, s.procs[p].pc.np);
  }

  /** A step in which no process gets another parent or pid, or enters or leaves fork(). */
  lemma BondSame(s: State, s': State, f: nat, np: nat, pid: nat, linked: bool, left: bool)
    requires Bond(s, f, np, pid, linked, left) && |s'.procs| == |s.procs| && s.nextpid <= s'.nextpid
    requires forall j :: 0 <= j < |s.procs| ==> Alike(s.procs[j], s'.procs[j])
    ensures Bond(s', f, np, pid, linked, left)
  {
    assert Alike(s.procs[f], s'.procs[f]) && Alike(s.procs[np], s'.procs[np]);
    assert Forking(s.procs[f].pc, np) ==> Forking(s'.procs[f].pc, np);
  }

  predicate Alike(q: Proc, q': Proc) {
    && q'.parent == q.parent && q'.pid == q.pid && (q'.state == UNUSED <==> q.state == UNUSED)
    && (q'.pc.Nascent? <==> q.pc.Nascent?)
    && (q.pc.ForkUsed? || q.pc.ForkLinked? || q'.pc.ForkUsed? || q'.pc.ForkLinked? ==> q'.pc == q.pc)
  }

  lemma AlikeExit(s: State, p: nat, a: Action, s': State)
    requires Inv(s) && Step(s, p, a, s')
    requires a.ForkFail? || a.ExitStart? || a.ExitWake? || a.ExitMark? || a.ExitRelease?
             || (a.ExitReparent? && s.procs[s.procs[p].pc.i].parent != Some(p))
    ensures |s'.procs| == |s.procs| && s.nextpid <= s'.nextpid
    ensures forall j :: 0 <= j < |s.procs| ==> Alike(s.procs[j], s'.procs[j])
  {
    hide Inv;
    ProcOf(s, p);
  }

  lemma AlikeWait(s: State, p: nat, a: Action, s': State)
    requires Inv(s) && Step(s, p, a, s')
    requires a.WaitStart? || a.WaitFault? || a.WaitGiveUp? || a.WaitSleepStart? || a.WaitDrop? || a.WaitAgain?
             || (a.WaitLook? && s'.procs[p].pc.WaitScan?)
    ensures |s'.procs| == |s.procs| && s.nextpid <= s'.nextpid
    ensures forall j :: 0 <= j < |s.procs| ==> Alike(s.procs[j], s'.procs[j])
  {
    hide Inv;
    ProcOf(s, p);
  }

  lemma AlikeSleep(s: State, p: nat, a: Action, s': State)
    requires Inv(s) && Step(s, p, a, s') && (a.SleepStart? || a.SleepMark? || a.Yield? || a.Wakeup?)
    ensures |s'.procs| == |s.procs| && s.nextpid <= s'.nextpid
    ensures forall j :: 0 <= j < |s.procs| ==> Alike(s.procs[j], s'.procs[j])
  {
    hide Inv;
    ProcOf(s, p);
  }

  lemma AlikeSched(s: State, p: nat, a: Action, s': State)
    requires Inv(s) && Step(s, p, a, s') && (a.Switch? || a.Resume? || a.CpuRun? || a.CpuRelease?)
    ensures |s'.procs| == |s.procs| && s.nextpid <= s'.nextpid
    ensures forall j :: 0 <= j < |s.procs| ==> Alike(s.procs[j], s'.procs[j])
  {
    hide Inv;
    ProcOf(s, p);
  }

  lemma LeaveFrame(s: State, p: nat, a: Action, s': State)
    requires Inv(s) && Step(s, p, a, s') && a.ExitReparent? && s.procs[s.procs[p].pc.i].parent == Some(p)
    ensures p < |s.procs| == |s'.procs| && s.procs[p].pc.Exit? && s.procs[p].pc.i < |s.procs| && p != INIT
    ensures s'.nextpid == s.nextpid
    ensures var i := s.procs[p].pc.i;
            && (forall j :: 0 <= j < |s.procs| && j != i ==> Alike(s.procs[j], s'.procs[j]))
            && s'.procs[i].parent == Some(INIT) && Alike(s.procs[i].(parent := Some(INIT)), s'.procs[i])
  {
    hide Inv;
    ProcOf(s, p);
    hide ProcOk;
  }

  lemma BondLeave(s: State, p: nat, a: Action, s': State, f: nat, np: nat, pid: nat, linked: bool, left: bool)
    requires Inv(s) && Step(s, p, a, s') && a.ExitReparent? && Bond(s, f, np, pid, linked, left)
    ensures Bond(s', f, np, pid, linked, left || LeaveStepOf(s, p, a, f, np))
  {
    hide Inv;
    if s.procs[s.procs[p].pc.i].parent != Some(p) {
      AlikeExit(s, p, a, s');
      hide Step;
      BondSame(s, s', f, np, pid, linked, left);
    } else {
      LeaveFrame(s, p, a, s');
      hide Step;
      assert Forking(s.procs[f].pc, np) ==> Forking(s'.procs[f].pc, np);
    }
  }

  lemma BondAlloc(s: State, p: nat, a: Action, s': State, f: nat, np: nat, pid: nat, linked: bool, left: bool)
    requires Inv(s) && Step(s, p, a, s') && a.ForkAlloc? && Bond(s, f, np, pid, linked, left)
    ensures Bond(s', f, np, pid, linked, left)
  {
    hide Inv;
    ProcOf(s, p);
    ProcOf(s, f);
    ProcOf(s, a.np);
    hide ProcOk;
  }

  lemma BondReady(s: State, p: nat, a: Action, s': State, f: nat, np: nat, pid: nat, linked: bool, left: bool)
    requires Inv(s) && Step(s, p, a, s') && a.ForkReady? && Bond(s, f, np, pid, linked, left)
    ensures Bond(s', f, np, pid, linked, left)
  {
    hide Inv;
    ProcOf(s, p);
    ProcOf(s, s.procs[p].pc.np);
    hide ProcOk;
  }

  lemma BondReap(s: State, p: nat, a: Action, s': State, f: nat, np: nat, pid: nat, linked: bool, left: bool)
    requires Inv(s) && Step(s, p, a, s') && a.WaitLook? && Bond(s, f, np, pid, linked, left)
    ensures Bond(s', f, np, pid, linked, left)
  {
    hide Inv;
    ProcOf(s, p);
    if s'.procs[p].pc.WaitScan? {
      AlikeWait(s, p, a, s');
      BondSame(s, s', f, np, pid, linked, left);
    } else {
      ProcOf(s, f);
      hide ProcOk;
      ReapFrame(s, p, a, s');
      hide Step;
    }
  }

  /** The actions that make no process, link none, hand none over and free none. */
  predicate Plain(a: Action) { !a.ForkAlloc? && !a.ForkReady? && !a.ForkLink? && !a.ExitReparent? && !a.WaitLook? }

  lemma AlikeSteps(s: State, p: nat, a: Action, s': State)
    requires Inv(s) && Step(s, p, a, s') && Plain(a)
    ensures |s'.procs| == |s.procs| && s.nextpid <= s'.nextpid
    ensures forall j :: 0 <= j < |s.procs| ==> Alike(s.procs[j], s'.procs[j])
  {
    hide Inv;
    hide Step;
    hide Alike;
    if a.ForkFail? || a.ExitStart? || a.ExitWake? || a.ExitMark? || a.ExitRelease? {
      AlikeExit(s, p, a, s');
    } else if a.WaitStart? || a.WaitFault? || a.WaitGiveUp? || a.WaitSleepStart? || a.WaitDrop? || a.WaitAgain? {
      AlikeWait(s, p, a, s');
    } else if a.SleepStart? || a.SleepMark? || a.Yield? || a.Wakeup? {
      AlikeSleep(s, p, a, s');
    } else {
      AlikeSched(s, p, a, s');
    }
  }

  lemma BondStep(s: State, p: nat, a: Action, s': State, f: nat, np: nat, pid: nat, linked: bool, left: bool)
    requires Inv(s) && Step(s, p, a, s') && Bond(s, f, np, pid, linked, left)
    ensures Bond(s', f, np, pid, linked || LinkStepOf(s, p, a, f, np), left || LeaveStepOf(s, p, a, f, np))
  {
    hide Inv;
    hide Step;
    hide Bond;
    hide Alike;
    match a
    case ForkAlloc(_) => BondAlloc(s, p, a, s', f, np, pid, linked, left);
    case ForkReady => BondReady(s, p, a, s', f, np, pid, linked, left);
    case ForkLink => BondLink(s, p, a, s', f, np, pid, linked, left);
    case ExitReparent => BondLeave(s, p, a, s', f, np, pid, linked, left);
    case WaitLook => BondReap(s, p, a, s', f, np, pid, linked, left);
    case _ =>
      AlikeSteps(s, p, a, s');
      BondSame(s, s', f, np, pid, linked, left);
  }

  ghost predicate Linked(ss: seq<State>, es: seq<Event>, j: nat, i: nat, f: nat, np: nat)
    requires i <= |es| && |ss| == |es| + 1
  {
    exists k :: j < k < i && Links(ss, es, k, f, np)
  }

  ghost predicate Left(ss: seq<State>, es: seq<Event>, j: nat, i: nat, f: nat, np: nat)
    requires i <= |es| && |ss| == |es| + 1
  {
    exists k :: j < k < i && Leaves(ss, es, k, f, np)
  }

  lemma HistoryStep(ss: seq<State>, es: seq<Event>, j: nat, i: nat, f: nat, np: nat)
    requires i < |es| && |ss| == |es| + 1 && j < i
    ensures Linked(ss, es, j, i + 1, f, np) <==> Linked(ss, es, j, i, f, np) || Links(ss, es, i, f, np)
    ensures Left(ss, es, j, i + 1, f, np) <==> Left(ss, es, j, i, f, np) || Leaves(ss, es, i, f, np)
  {
    hide Links;
    hide Leaves;
    if k :| j < k < i && Links(ss, es, k, f, np) {
      assert j < k < i + 1;
    }
    if k :| j < k < i && Leaves(ss, es, k, f, np) {
      assert j < k < i + 1;
    }
  }

  lemma BondStarts(s: State, p: nat, a: Action, s': State)
    requires Inv(s) && Step(s, p, a, s') && a.ForkAlloc?
    ensures Bond(s', p, a.np, s.nextpid, false, false)
  {
    hide Inv;
    ProcOf(s, p);
    ProcOf(s, a.np);
  }

  lemma {:induction false} BondRun(ss: seq<State>, es: seq<Event>, j: nat, i: nat)
    requires IsRun(ss, es) && j < i < |ss| && es[j].a.ForkAlloc?
    ensures var f, np := es[j].p, es[j].a.np;
            Bond(ss[i], f, np, ss[j].nextpid, Linked(ss, es, j, i, f, np), Left(ss, es, j, i, f, np))
  {
    hide Inv;
    hide Step;
    hide Bond;
    hide Init;
    var f, np := es[j].p, es[j].a.np;
    RunInv(ss, es, i - 1);
    assert StepAt(ss, es, i - 1);
    if i == j + 1 {
      BondStarts(ss[j], f, es[j].a, ss[i]);
    } else {
      BondRun(ss, es, j, i - 1);
      HistoryStep(ss, es, j, i - 1, f, np);
      var linked, left := Linked(ss, es, j, i - 1, f, np), Left(ss, es, j, i - 1, f, np);
      hide Linked;
      hide Left;
      BondStep(ss[i - 1], es[i - 1].p, es[i - 1].a, ss[i], f, np, ss[j].nextpid, linked, left);
    }
  }

  /** Whose child a process is.  The process that slot f forks, at step j, into slot np has no parent
      until that fork() sets it; then its parent is f, until the process in f exits and comes to
      it in reparent(); then its parent is init.  Nothing else ever changes it while it lives. */
  lemma Parentage(ss: seq<State>, es: seq<Event>, j: nat, i: nat)
    requires IsRun(ss, es) && j < i < |ss| && es[j].a.ForkAlloc? && Lives(ss[i], es[j].a.np, ss[j].nextpid)
    ensures var f, np := es[j].p, es[j].a.np;
            ss[i].procs[np].parent == if !Linked(ss, es, j, i, f, np) then None
                                      else if Left(ss, es, j, i, f, np) then Some(INIT) else Some(f)
  {
    BondRun(ss, es, j, i);
    hide IsRun;
    hide Linked;
    hide Left;
  }

  /** A process past its fork() has a parent, so that wait() can find it. */
  lemma HasParent(ss: seq<State>, es: seq<Event>, j: nat, i: nat)
    requires IsRun(ss, es) && j < i < |ss| && es[j].a.ForkAlloc? && Lives(ss[i], es[j].a.np, ss[j].nextpid)
    requires ss[i].procs[es[j].a.np].state != USED
    ensures ss[i].procs[es[j].a.np].parent == Some(INIT) || ss[i].procs[es[j].a.np].parent == Some(es[j].p)
  {
    BondRun(ss, es, j, i);
    RunInv(ss, es, i);
    hide IsRun;
    hide Linked;
    hide Left;
    hide Inv;
    ProcOf(ss[i], es[j].p);
    ProcOf(ss[i], es[j].a.np);
  }

  lemma StaysOn(s: State, p: nat, a: Action, s': State, np: nat, pid: nat)
    requires Inv(s) && Step(s, p, a, s') && !a.WaitLook? && Lives(s, np, pid)
    ensures Lives(s', np, pid)
  {
    hide Inv;
    if Plain(a) {
      AlikeSteps(s, p, a, s');
    } else if a.ExitReparent? {
      if s.procs[s.procs[p].pc.i].parent == Some(p) {
        LeaveFrame(s, p, a, s');
      } else {
        AlikeExit(s, p, a, s');
      }
    }
  }

  /** Only wait() makes a process disappear. */
  lemma GoesByWait(s: State, p: nat, a: Action, s': State, np: nat, pid: nat)
    requires Inv(s) && Step(s, p, a, s') && Lives(s, np, pid) && !Lives(s', np, pid)
    ensures a.WaitLook? && s.procs[np].parent == Some(p) && s.procs[np].state == ZOMBIE
    ensures s'.reaped == s.reaped + {pid}
  {
    hide Inv;
    if !a.WaitLook? {
      StaysOn(s, p, a, s', np, pid);
      assert false;
    }
  }

  /** The step in which a forked process disappears is one of wait(), and the caller is the process
      that forked it, or init if that one has exited. */
  lemma ReapedByParent(ss: seq<State>, es: seq<Event>, j: nat, i: nat)
    requires IsRun(ss, es) && j < i < |es| && es[j].a.ForkAlloc?
    requires Lives(ss[i], es[j].a.np, ss[j].nextpid) && !Lives(ss[i + 1], es[j].a.np, ss[j].nextpid)
    ensures es[i].a.WaitLook? && ss[i + 1].reaped == ss[i].reaped + {ss[j].nextpid}
    ensures es[i].p == if Left(ss, es, j, i, es[j].p, es[j].a.np) then INIT else es[j].p
  {
    hide Step;
    hide Inv;
    hide Linked;
    hide Left;
    Parentage(ss, es, j, i);
    RunInv(ss, es, i);
    assert StepAt(ss, es, i);
    GoesByWait(ss[i], es[i].p, es[i].a, ss[i + 1], es[j].a.np, ss[j].nextpid);
  }
}
