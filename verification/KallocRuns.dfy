/** kalloc() and kfree() of kernel/kalloc.c on any number of CPUs in every interleaving, together
    with what kernel/vm.c does with the pages: each free list has its lock, and a kalloc() that
    steals keeps its own list's lock while it takes the others' one after the other; in between,
    threads put pages they hold into page tables and take them out again. */
module KallocRuns {
  import opened Options

  datatype Pc =
    | Out                       // not in the allocator
    | Own(cid: nat)             // kalloc() with its own list's lock
    | Scan(cid: nat, i: nat)    // own list empty, lists before i were empty when looked at
    | Look(cid: nat, i: nat)    // also holds list i's lock

  /** hands: the pages that the thread has got and not given back. */
  datatype Thread = Thread(pc: Pc, hands: set<nat>)

  /** A page table: its page table pages, and its own pages by page number. */
  datatype Space = Space(nodes: set<nat>, leaves: map<nat, nat>)

  datatype Place = OnList(i: nat) | InHands(t: nat) | InTable(r: nat) | Mapped(r: nat, v: nat)

  /** place records where each page is. */
  datatype State = State(lists: seq<seq<nat>>, locks: seq<Option<nat>>, threads: seq<Thread>, spaces: map<nat, Space>,
                         place: map<nat, Place>)

  datatype Action =
    | Start(cid: nat) | TakeOwn | OwnEmpty
    | Skip | LockNext | Steal | LookEmpty | Fail
    | Free(p: nat, cid: nat)
    | Create(r: nat)             // uvmcreate() makes a page a page table
    | Link(r: nat, p: nat)       // walk() links a page table page in
    | Map(r: nat, v: nat, p: nat)
    | Unmap(r: nat, v: nat)
    | Unlink(r: nat, p: nat)     // freewalk() takes a page table page out
    | Destroy(r: nat)            // of an empty page table

  function Go(s: State, t: nat, pc: Pc): State
    requires t < |s.threads|
  {
    s.(threads := s.threads[t := s.threads[t].(pc := pc)])
  }

  function SetLock(s: State, i: nat, h: Option<nat>): State
    requires i < |s.locks|
  {
    s.(locks := s.locks[i := h])
  }

  /** Thread t takes the first page of list i. */
  function Pop(s: State, t: nat, i: nat): State
    requires t < |s.threads| && i < |s.lists| && s.lists[i] != []
  {
    var p := s.lists[i][0];
    s.(lists := s.lists[i := s.lists[i][1..]],
       threads := s.threads[t := Thread(Out, s.threads[t].hands + {p})],
       place := s.place[p := InHands(t)])
  }

  ghost predicate Step(s: State, t: nat, a: Action, s': State) {
    && |s.locks| == |s.lists| && t < |s.threads|
    && var pc := s.threads[t].pc;
    match a
    case Start(cid) =>
      pc.Out? && cid < |s.locks| && s.locks[cid] == None && s' == SetLock(Go(s, t, Own(cid)), cid, Some(t))
    case TakeOwn =>
      pc.Own? && pc.cid < |s.lists| && s.lists[pc.cid] != [] && s' == SetLock(Pop(s, t, pc.cid), pc.cid, None)
    case OwnEmpty =>
      pc.Own? && pc.cid < |s.lists| && s.lists[pc.cid] == [] && s' == Go(s, t, Scan(pc.cid, 0))
    case Skip =>
      pc.Scan? && pc.i < |s.lists| && pc.i == pc.cid && s' == Go(s, t, Scan(pc.cid, pc.i + 1))
    case LockNext =>
      && pc.Scan? && pc.i < |s.lists| && pc.i != pc.cid && s.locks[pc.i] == None
      && s' == SetLock(Go(s, t, Look(pc.cid, pc.i)), pc.i, Some(t))
    case Steal =>
      && pc.Look? && pc.i < |s.lists| && pc.cid < |s.lists| && s.lists[pc.i] != []
      && s' == SetLock(SetLock(Pop(s, t, pc.i), pc.i, None), pc.cid, None)
    case LookEmpty =>
      && pc.Look? && pc.i < |s.lists| && s.lists[pc.i] == []
      && s' == SetLock(Go(s, t, Scan(pc.cid, pc.i + 1)), pc.i, None)
    case Fail =>
      pc.Scan? && pc.i == |s.lists| && pc.cid < |s.lists| && s' == SetLock(Go(s, t, Out), pc.cid, None)
    case Free(p, cid) =>
      && pc.Out? && p in s.threads[t].hands && cid < |s.lists| && s.locks[cid] == None
      && s' == s.(lists := s.lists[cid := [p] + s.lists[cid]],
                  threads := s.threads[t := s.threads[t].(hands := s.threads[t].hands - {p})],
                  place := s.place[p := OnList(cid)])
    case Create(r) =>
      && pc.Out? && r in s.threads[t].hands && r !in s.spaces
      && s' == Drop(s, t, r).(spaces := s.spaces[r := Space({r}, map[])], place := s.place[r := InTable(r)])
    case Link(r, p) =>
      && pc.Out? && p in s.threads[t].hands && r in s.spaces
      && s' == Drop(s, t, p).(spaces := s.spaces[r := s.spaces[r].(nodes := s.spaces[r].nodes + {p})],
                              place := s.place[p := InTable(r)])
    case Map(r, v, p) =>
      && pc.Out? && p in s.threads[t].hands && r in s.spaces && v !in s.spaces[r].leaves
      && s' == Drop(s, t, p).(spaces := s.spaces[r := s.spaces[r].(leaves := s.spaces[r].leaves[v := p])],
                              place := s.place[p := Mapped(r, v)])
    case Unmap(r, v) =>
      && pc.Out? && r in s.spaces && v in s.spaces[r].leaves
      && var p := s.spaces[r].leaves[v];
      s' == Grab(s, t, p).(spaces := s.spaces[r := s.spaces[r].(leaves := s.spaces[r].leaves - {v})])
    case Unlink(r, p) =>
      && pc.Out? && r in s.spaces && p in s.spaces[r].nodes
      && s' == Grab(s, t, p).(spaces := s.spaces[r := s.spaces[r].(nodes := s.spaces[r].nodes - {p})])
    case Destroy(r) =>
      pc.Out? && r in s.spaces && s.spaces[r] == Space({}, map[]) && s' == s.(spaces := s.spaces - {r})
  }

  /** Page p leaves the hands of thread t. */
  function Drop(s: State, t: nat, p: nat): State
    requires t < |s.threads|
  {
    s.(threads := s.threads[t := s.threads[t].(hands := s.threads[t].hands - {p})])
  }

  /** Thread t gets page p. */
  function Grab(s: State, t: nat, p: nat): State
    requires t < |s.threads|
  {
    s.(threads := s.threads[t := s.threads[t].(hands := s.threads[t].hands + {p})], place := s.place[p := InHands(t)])
  }

  // ---------------------------------------------------------------- the invariant

  predicate Holds(pc: Pc, i: nat) { (!pc.Out? && pc.cid == i) || (pc.Look? && pc.i == i) }

  ghost predicate ListOk(s: State, i: nat)
    requires i < |s.lists|
  {
    && (forall k :: 0 <= k < |s.lists[i]| ==> s.lists[i][k] in s.place && s.place[s.lists[i][k]] == OnList(i))
    && (forall j, k :: 0 <= j < k < |s.lists[i]| ==> s.lists[i][j] != s.lists[i][k])
  }

  ghost predicate ThreadOk(s: State, t: nat)
    requires t < |s.threads|
  {
    var th := s.threads[t];
    && (forall p :: p in th.hands ==> p in s.place && s.place[p] == InHands(t))
    && (!th.pc.Out? ==> th.pc.cid < |s.lists|)
    && (th.pc.Scan? ==> th.pc.i <= |s.lists|)
    && (th.pc.Look? ==> th.pc.i < |s.lists| && th.pc.i != th.pc.cid)
    && (th.pc.Scan? || th.pc.Look? ==> s.lists[th.pc.cid] == [])
    && (forall i :: 0 <= i < |s.locks| && Holds(th.pc, i) ==> s.locks[i] == Some(t))
  }

  ghost predicate PageOk(s: State, p: nat)
    requires p in s.place
  {
    match s.place[p]
    case OnList(i) => i < |s.lists| && p in s.lists[i]
    case InHands(t) => t < |s.threads| && p in s.threads[t].hands
    case InTable(r) => r in s.spaces && p in s.spaces[r].nodes
    case Mapped(r, v) => r in s.spaces && v in s.spaces[r].leaves && s.spaces[r].leaves[v] == p
  }

  ghost predicate SpaceOk(s: State, r: nat)
    requires r in s.spaces
  {
    && (forall p :: p in s.spaces[r].nodes ==> p in s.place && s.place[p] == InTable(r))
    && (forall v :: v in s.spaces[r].leaves ==> LeafOk(s, r, v))
  }

  ghost predicate LeafOk(s: State, r: nat, v: nat)
    requires r in s.spaces && v in s.spaces[r].leaves
  {
    s.spaces[r].leaves[v] in s.place && s.place[s.spaces[r].leaves[v]] == Mapped(r, v)
  }

  ghost predicate Inv(s: State) {
    && |s.locks| == |s.lists|
    && (forall i :: 0 <= i < |s.lists| ==> ListOk(s, i))
    && (forall t :: 0 <= t < |s.threads| ==> ThreadOk(s, t))
    && (forall r :: r in s.spaces ==> SpaceOk(s, r))
    && (forall p :: p in s.place ==> PageOk(s, p))
  }

  // ---------------------------------------------------------------- every step

  /** What the invariant says about one thread, one list, one table, one page. */
  lemma ThreadOf(s: State, t: nat)
    requires Inv(s) && t < |s.threads|
    ensures ThreadOk(s, t) && |s.locks| == |s.lists|
  {
  }

  lemma ListOf(s: State, i: nat)
    requires Inv(s) && i < |s.lists|
    ensures ListOk(s, i)
  {
  }

  lemma SpaceOf(s: State, r: nat)
    requires Inv(s) && r in s.spaces
    ensures SpaceOk(s, r)
  {
  }

  lemma PageOf(s: State, p: nat)
    requires Inv(s) && p in s.place
    ensures PageOk(s, p)
  {
  }

  /** The parts of the invariant, put together. */
  lemma Assemble(s: State)
    requires |s.locks| == |s.lists|
    requires forall i :: 0 <= i < |s.lists| ==> ListOk(s, i)
    requires forall t :: 0 <= t < |s.threads| ==> ThreadOk(s, t)
    requires forall r :: r in s.spaces ==> SpaceOk(s, r)
    requires forall p :: p in s.place ==> PageOk(s, p)
    ensures Inv(s)
  {
  }

  /** Steps that move no page: only thread t and locks it holds or takes change. */
  lemma QuietStep(s: State, t: nat, s': State)
    requires Inv(s) && t < |s.threads| == |s'.threads| && s'.lists == s.lists && s'.place == s.place
    requires |s'.locks| == |s.locks| && s'.spaces == s.spaces
    requires s'.threads == s.threads[t := s'.threads[t]] && s'.threads[t].hands == s.threads[t].hands
    requires forall i :: 0 <= i < |s.locks| && s'.locks[i] != s.locks[i] ==> s.locks[i] == None || s.locks[i] == Some(t)
    requires ThreadOk(s', t)
    ensures Inv(s')
  {
    forall i | 0 <= i < |s'.lists|
      ensures ListOk(s', i)
    {
      assert ListOk(s, i);
    }
    forall u | 0 <= u < |s'.threads|
      ensures ThreadOk(s', u)
    {
      assert ThreadOk(s, u);
    }
    SpacesKept(s, s');
    forall p | p in s'.place
      ensures PageOk(s', p)
    {
      assert PageOk(s, p);
    }
  }

  /** No page of a table moved. */
  lemma SpacesKept(s: State, s': State)
    requires forall r :: r in s'.spaces ==> r in s.spaces && s'.spaces[r] == s.spaces[r] && SpaceOk(s, r)
    requires forall p :: p in s.place && (s.place[p].InTable? || s.place[p].Mapped?) ==>
             p in s'.place && s'.place[p] == s.place[p]
    ensures forall r :: r in s'.spaces ==> SpaceOk(s', r)
  {
    forall r | r in s'.spaces
      ensures SpaceOk(s', r)
    {
      assert SpaceOk(s, r);
      forall v | v in s.spaces[r].leaves
        ensures LeafOk(s', r, v)
      {
        assert LeafOk(s, r, v);
      }
    }
  }

  lemma PopStep(s: State, t: nat, i: nat, s': State)
    requires Inv(s) && t < |s.threads| && i < |s.lists| && s.lists[i] != [] && s.locks[i] == Some(t)
    requires var q := Pop(s, t, i);
             && s'.lists == q.lists && s'.threads == q.threads && s'.place == q.place && s'.spaces == q.spaces
             && |s'.locks| == |s.locks|
    requires forall j :: 0 <= j < |s.locks| && s'.locks[j] != s.locks[j] ==> s.locks[j] == Some(t)
    ensures Inv(s') && s'.place.Keys == s.place.Keys
  {
    var p := s.lists[i][0];
    assert ListOk(s, i);
    forall j | 0 <= j < |s'.lists|
      ensures ListOk(s', j)
    {
      assert ListOk(s, j);
    }
    forall u | 0 <= u < |s'.threads|
      ensures ThreadOk(s', u)
    {
      assert ThreadOk(s, u);
    }
    SpacesKept(s, s');
    forall x | x in s'.place
      ensures PageOk(s', x)
    {
      assert PageOk(s, x);
      if x != p && x in s.lists[i] {
        assert s.lists[i] == [p] + s.lists[i][1..];
      }
    }
  }

  lemma FreeStep(s: State, t: nat, a: Action, s': State)
    requires Inv(s) && Step(s, t, a, s') && a.Free?
    ensures Inv(s') && s'.place.Keys == s.place.Keys
  {
    assert ThreadOk(s, t);
    forall j | 0 <= j < |s'.lists|
      ensures ListOk(s', j)
    {
      assert ListOk(s, j);
    }
    forall u | 0 <= u < |s'.threads|
      ensures ThreadOk(s', u)
    {
      assert ThreadOk(s, u);
    }
    SpacesKept(s, s');
    forall x | x in s'.place
      ensures PageOk(s', x)
    {
      assert PageOk(s, x);
      if x == a.p {
        assert s'.lists[a.cid][0] == x;
      } else if x in s.lists[a.cid] {
        assert s'.lists[a.cid] == [a.p] + s.lists[a.cid];
      }
    }
  }

  /** A step of vm.c, as far as the lists, the threads and the places go: page p moves between
      the hands of thread t and a table. */
  ghost predicate Moves(s: State, t: nat, s': State, p: nat) {
    && s'.lists == s.lists && s'.locks == s.locks && t < |s.threads| == |s'.threads|
    && p in s.place && p in s'.place && s'.place == s.place[p := s'.place[p]] && !s.place[p].OnList?
    && s'.threads == s.threads[t := s.threads[t].(hands := s'.threads[t].hands)]
    && (s.place[p] == InHands(t) ==> s'.threads[t].hands == s.threads[t].hands - {p} && !s'.place[p].InHands?)
    && (s.place[p] != InHands(t) ==> !s.place[p].InHands? && s'.threads[t].hands == s.threads[t].hands + {p}
                                     && s'.place[p] == InHands(t))
    && !s'.place[p].OnList?
  }

  /** A page from a thread's hands goes into a table, or back. */
  lemma TableMoves(s: State, t: nat, a: Action, s': State) returns (p: nat)
    requires Inv(s) && Step(s, t, a, s') && (a.Create? || a.Link? || a.Map? || a.Unmap? || a.Unlink?)
    ensures Moves(s, t, s', p)
    ensures a.Unmap? ==> a.r in s.spaces && a.v in s.spaces[a.r].leaves && p == s.spaces[a.r].leaves[a.v]
    ensures a.Unmap? ==> s.place[p] == Mapped(a.r, a.v)
    ensures a.Unlink? ==> p == a.p && s.place[p] == InTable(a.r)
    ensures a.Create? ==> p == a.r
    ensures a.Link? || a.Map? ==> p == a.p
    ensures a.Create? || a.Link? || a.Map? ==> s.place[p] == InHands(t)
  {
    hide Inv;
    ThreadOf(s, t);
    if a.r in s.spaces {
      SpaceOf(s, a.r);
    }
    if a.Unmap? {
      assert LeafOk(s, a.r, a.v);
      p := s.spaces[a.r].leaves[a.v];
    } else {
      p := if a.Create? then a.r else a.p;
    }
  }

  lemma MovedThread(s: State, t: nat, s': State, p: nat, u: nat)
    requires Inv(s) && Moves(s, t, s', p) && u < |s.threads|
    ensures ThreadOk(s', u)
  {
    hide Inv;
    ThreadOf(s, u);
    ThreadOf(s, t);
  }

  lemma MovedList(s: State, t: nat, s': State, p: nat, i: nat)
    requires Inv(s) && Moves(s, t, s', p) && i < |s.lists|
    ensures ListOk(s', i)
  {
    hide Inv;
    ListOf(s, i);
  }

  /** A page goes into table r. */
  lemma TableIn(s: State, t: nat, a: Action, s': State, p: nat)
    requires Inv(s) && Step(s, t, a, s') && (a.Create? || a.Link? || a.Map?) && Moves(s, t, s', p)
    requires s.place[p] == InHands(t) && (a.Create? ==> p == a.r) && (a.Link? || a.Map? ==> p == a.p)
    ensures forall r :: r in s'.spaces ==> SpaceOk(s', r)
    ensures forall x :: x in s'.place ==> PageOk(s', x)
  {
    hide Inv;
    forall r | r in s'.spaces
      ensures SpaceOk(s', r)
    {
      InSpace(s, t, a, s', p, r);
    }
    forall x | x in s'.place
      ensures PageOk(s', x)
    {
      InPage(s, t, a, s', p, x);
    }
  }

  lemma InSpace(s: State, t: nat, a: Action, s': State, p: nat, r: nat)
    requires Inv(s) && Step(s, t, a, s') && (a.Create? || a.Link? || a.Map?) && Moves(s, t, s', p) && r in s'.spaces
    requires s.place[p] == InHands(t) && (a.Create? ==> p == a.r) && (a.Link? || a.Map? ==> p == a.p)
    ensures SpaceOk(s', r)
  {
    hide Inv;
    if r in s.spaces {
      SpaceOf(s, r);
    }
    forall v | v in s'.spaces[r].leaves
      ensures LeafOk(s', r, v)
    {
      assert r in s.spaces && v in s.spaces[r].leaves ==> LeafOk(s, r, v);
    }
  }

  lemma InPage(s: State, t: nat, a: Action, s': State, p: nat, x: nat)
    requires Inv(s) && Step(s, t, a, s') && (a.Create? || a.Link? || a.Map?) && Moves(s, t, s', p) && x in s'.place
    requires s.place[p] == InHands(t) && (a.Create? ==> p == a.r) && (a.Link? || a.Map? ==> p == a.p)
    ensures PageOk(s', x)
  {
    hide Inv;
    PageOf(s, x);
  }

  /** A page leaves table r. */
  lemma TableOut(s: State, t: nat, a: Action, s': State, p: nat)
    requires Inv(s) && Step(s, t, a, s') && (a.Unmap? || a.Unlink?) && Moves(s, t, s', p)
    requires a.Unlink? ==> p == a.p && s.place[p] == InTable(a.r)
    requires a.Unmap? ==> a.r in s.spaces && a.v in s.spaces[a.r].leaves && p == s.spaces[a.r].leaves[a.v]
    requires a.Unmap? ==> s.place[p] == Mapped(a.r, a.v)
    ensures forall r :: r in s'.spaces ==> SpaceOk(s', r)
    ensures forall x :: x in s'.place ==> PageOk(s', x)
  {
    hide Inv;
    forall r | r in s'.spaces
      ensures SpaceOk(s', r)
    {
      SpaceOf(s, r);
      forall v | v in s'.spaces[r].leaves
        ensures LeafOk(s', r, v)
      {
        assert LeafOk(s, r, v);
      }
    }
    forall x | x in s'.place
      ensures PageOk(s', x)
    {
      PageOf(s, x);
    }
  }

  lemma DestroyStep(s: State, t: nat, a: Action, s': State)
    requires Inv(s) && Step(s, t, a, s') && a.Destroy?
    ensures Inv(s') && s'.place == s.place
  {
    forall r | r in s'.spaces
      ensures SpaceOk(s', r)
    {
      assert SpaceOk(s, r);
      forall v | v in s'.spaces[r].leaves
        ensures LeafOk(s', r, v)
      {
        assert LeafOk(s, r, v);
      }
    }
    forall i | 0 <= i < |s'.lists|
      ensures ListOk(s', i)
    {
      assert ListOk(s, i);
    }
    forall u | 0 <= u < |s'.threads|
      ensures ThreadOk(s', u)
    {
      assert ThreadOk(s, u);
    }
    forall x | x in s'.place
      ensures PageOk(s', x)
    {
      assert PageOk(s, x);
    }
    hide PageOk;
    hide ThreadOk;
    hide ListOk;
    hide SpaceOk;
    Assemble(s');
  }

  /** Steps of vm.c: one page p moves between a thread's hands and a page table. */
  lemma TableStep(s: State, t: nat, a: Action, s': State)
    requires Inv(s) && Step(s, t, a, s') && (a.Create? || a.Link? || a.Map? || a.Unmap? || a.Unlink?)
    ensures Inv(s') && s'.place.Keys == s.place.Keys
  {
    hide Inv;
    hide SpaceOk;
    hide PageOk;
    hide ListOk;
    ThreadOf(s, t);
    hide ThreadOk;
    var p := TableMoves(s, t, a, s');
    if a.Unmap? || a.Unlink? {
      TableOut(s, t, a, s', p);
    } else {
      TableIn(s, t, a, s', p);
    }
    hide Step;
    forall u | 0 <= u < |s'.threads|
      ensures ThreadOk(s', u)
    {
      MovedThread(s, t, s', p, u);
    }
    forall i | 0 <= i < |s'.lists|
      ensures ListOk(s', i)
    {
      MovedList(s, t, s', p, i);
    }
    Assemble(s');
  }

  lemma TakeStep(s: State, t: nat, a: Action, s': State)
    requires Inv(s) && Step(s, t, a, s') && (a.TakeOwn? || a.Steal?)
    ensures Inv(s') && s'.place.Keys == s.place.Keys
  {
    hide Inv;
    ThreadOf(s, t);
    PopStep(s, t, if a.Steal? then s.threads[t].pc.i else s.threads[t].pc.cid, s');
  }

  lemma SearchStep(s: State, t: nat, a: Action, s': State)
    requires Inv(s) && Step(s, t, a, s')
    requires a.Start? || a.OwnEmpty? || a.Skip? || a.LockNext? || a.LookEmpty? || a.Fail?
    ensures Inv(s') && s'.place.Keys == s.place.Keys
  {
    hide Inv;
    ThreadOf(s, t);
    QuietStep(s, t, s');
  }

  /** Every step keeps every page in exactly one place. */
  lemma StepKeeps(s: State, t: nat, a: Action, s': State)
    requires Inv(s) && Step(s, t, a, s')
    ensures Inv(s') && s'.place.Keys == s.place.Keys
  {
    hide Inv;
    match a
    case TakeOwn => TakeStep(s, t, a, s');
    case Steal => TakeStep(s, t, a, s');
    case Free(_, _) => FreeStep(s, t, a, s');
    case Start(_) => SearchStep(s, t, a, s');
    case OwnEmpty => SearchStep(s, t, a, s');
    case Skip => SearchStep(s, t, a, s');
    case LockNext => SearchStep(s, t, a, s');
    case LookEmpty => SearchStep(s, t, a, s');
    case Fail => SearchStep(s, t, a, s');
    case Destroy(_) => DestroyStep(s, t, a, s');
    case _ => TableStep(s, t, a, s');
  }

  // ---------------------------------------------------------------- runs

  ghost predicate StepAt(ss: seq<State>, ts: seq<nat>, es: seq<Action>, i: nat)
    requires i < |es| && |ss| == |es| + 1 && |ts| == |es|
  {
    Step(ss[i], ts[i], es[i], ss[i + 1])
  }

  /** A run from a state in which no call is under way. */
  ghost predicate IsRun(ss: seq<State>, ts: seq<nat>, es: seq<Action>) {
    && |ss| == |es| + 1 && |ts| == |es| && Inv(ss[0])
    && (forall t :: 0 <= t < |ss[0].threads| ==> ss[0].threads[t].pc == Out)
    && forall i :: 0 <= i < |es| ==> StepAt(ss, ts, es, i)
  }

  lemma {:induction false} RunInv(ss: seq<State>, ts: seq<nat>, es: seq<Action>, i: nat)
    requires IsRun(ss, ts, es) && i < |ss|
    ensures Inv(ss[i]) && ss[i].place.Keys == ss[0].place.Keys
  {
    if i > 0 {
      RunInv(ss, ts, es, i - 1);
      assert StepAt(ss, ts, es, i - 1);
      StepKeeps(ss[i - 1], ts[i - 1], es[i - 1], ss[i]);
    }
  }

  /** Place x has page p. */
  ghost predicate Has(s: State, x: Place, p: nat) {
    match x
    case OnList(i) => i < |s.lists| && p in s.lists[i]
    case InHands(t) => t < |s.threads| && p in s.threads[t].hands
    case InTable(r) => r in s.spaces && p in s.spaces[r].nodes
    case Mapped(r, v) => r in s.spaces && v in s.spaces[r].leaves && s.spaces[r].leaves[v] == p
  }

  /** In every run no page is lost, duplicated or invented: each page of the first state, and no
      other, is in exactly one place: one free list, one page table, one page number of one
      page table, or one thread's hands. */
  lemma PagesConserved(ss: seq<State>, ts: seq<nat>, es: seq<Action>, n: nat, p: nat)
    requires IsRun(ss, ts, es) && n < |ss|
    ensures p in ss[0].place <==> exists x :: Has(ss[n], x, p)
    ensures forall x, y :: Has(ss[n], x, p) && Has(ss[n], y, p) ==> x == y
  {
    RunInv(ss, ts, es, n);
    var s := ss[n];
    forall x | Has(s, x, p)
      ensures p in s.place && s.place[p] == x
    {
      match x
      case OnList(i) => assert ListOk(s, i);
      case InHands(t) => assert ThreadOk(s, t);
      case InTable(r) => assert SpaceOk(s, r);
      case Mapped(r, v) => assert SpaceOk(s, r) && LeafOk(s, r, v);
    }
    if p in s.place {
      assert PageOk(s, p);
      assert Has(s, s.place[p], p);
    }
  }

  // ---------------------------------------------------------------- a kalloc() that fails

  /** Thread t is inside one call of kalloc() on CPU cid, begun by step b, in the states after b up
      to n. */
  ghost predicate InCall(ss: seq<State>, ts: seq<nat>, es: seq<Action>, t: nat, cid: nat, b: nat, n: nat) {
    && |ss| == |es| + 1 && |ts| == |es| && b < n < |ss| && ts[b] == t && es[b] == Start(cid)
    && forall m :: b < m <= n ==> CallAt(ss[m], t, cid)
  }

  ghost predicate CallAt(s: State, t: nat, cid: nat) {
    t < |s.threads| && !s.threads[t].pc.Out? && s.threads[t].pc.cid == cid
  }

  /** List i was empty in some state after b up to n. */
  ghost predicate WasEmpty(ss: seq<State>, i: nat, b: nat, n: nat) {
    exists m :: b < m <= n && m < |ss| && EmptyIn(ss[m], i)
  }

  ghost predicate EmptyIn(s: State, i: nat) { i < |s.lists| && s.lists[i] == [] }

  /** The lists that the search has passed. */
  ghost predicate Passed(pc: Pc, i: nat) {
    (pc.Scan? || pc.Look?) && (i < pc.i || i == pc.cid)
  }

  /** While a call is under way, every list that its search has passed was empty at some moment of
      the call. */
  lemma {:induction false} PassedEmpty(ss: seq<State>, ts: seq<nat>, es: seq<Action>, n: nat, t: nat) returns (b: nat)
    requires IsRun(ss, ts, es) && n < |ss| && t < |ss[n].threads| && !ss[n].threads[t].pc.Out?
    ensures InCall(ss, ts, es, t, ss[n].threads[t].pc.cid, b, n)
    ensures forall i :: 0 <= i < |ss[n].lists| && Passed(ss[n].threads[t].pc, i) ==> WasEmpty(ss, i, b, n)
    decreases n
  {
    hide Inv;
    hide Step;
    RunInv(ss, ts, es, n);
    assert n > 0;
    RunInv(ss, ts, es, n - 1);
    assert StepAt(ss, ts, es, n - 1);
    var s, s' := ss[n - 1], ss[n];
    CallStep(s, ts[n - 1], es[n - 1], s', t);
    if s.threads[t].pc.Out? {
      b := n - 1;
      assert CallAt(ss[n], t, s'.threads[t].pc.cid);
    } else {
      b := PassedEmpty(ss, ts, es, n - 1, t);
      CallGoesOn(ss, ts, es, n, t, b);
      forall i | 0 <= i < |s'.lists| && Passed(s'.threads[t].pc, i)
        ensures WasEmpty(ss, i, b, n)
      {
        if Passed(s.threads[t].pc, i) {
          var m :| b < m <= n - 1 && m < |ss| && EmptyIn(ss[m], i);
          assert EmptyIn(ss[m], i);
        } else {
          assert EmptyIn(ss[n], i);
        }
      }
    }
  }

  /** A list that a step of the search passes is empty. */
  lemma CallStep(s: State, u: nat, a: Action, s': State, t: nat)
    requires Inv(s) && Inv(s') && Step(s, u, a, s') && t < |s'.threads| && !s'.threads[t].pc.Out?
    ensures t < |s.threads| && |s'.lists| == |s.lists|
    ensures s.threads[t].pc.Out? ==> u == t && a == Start(s'.threads[t].pc.cid) && s'.threads[t].pc.Own?
    ensures !s.threads[t].pc.Out? ==> s'.threads[t].pc.cid == s.threads[t].pc.cid
    ensures forall i :: 0 <= i < |s.lists| && Passed(s'.threads[t].pc, i) ==>
            Passed(s.threads[t].pc, i) || EmptyIn(s', i)
  {
    assert t < |s.threads|;
    assert ThreadOk(s, t) && ThreadOk(s', t);
  }

  lemma CallGoesOn(ss: seq<State>, ts: seq<nat>, es: seq<Action>, n: nat, t: nat, b: nat)
    requires IsRun(ss, ts, es) && 0 < n < |ss| && t < |ss[n].threads| && !ss[n].threads[t].pc.Out?
    requires t < |ss[n - 1].threads| && !ss[n - 1].threads[t].pc.Out?
    requires InCall(ss, ts, es, t, ss[n - 1].threads[t].pc.cid, b, n - 1)
    ensures InCall(ss, ts, es, t, ss[n].threads[t].pc.cid, b, n)
  {
    hide Inv;
    hide Step;
    RunInv(ss, ts, es, n);
    RunInv(ss, ts, es, n - 1);
    assert StepAt(ss, ts, es, n - 1);
    CallStep(ss[n - 1], ts[n - 1], es[n - 1], ss[n], t);
    assert CallAt(ss[n], t, ss[n - 1].threads[t].pc.cid);
  }

  /** A kalloc() that fails found every free list empty, each at some moment between its start and
      its end. */
  lemma FailsOnlyEmpty(ss: seq<State>, ts: seq<nat>, es: seq<Action>, n: nat) returns (b: nat)
    requires IsRun(ss, ts, es) && n < |es| && es[n].Fail?
    ensures ts[n] < |ss[n].threads| && !ss[n].threads[ts[n]].pc.Out?
    ensures InCall(ss, ts, es, ts[n], ss[n].threads[ts[n]].pc.cid, b, n)
    ensures forall i :: 0 <= i < |ss[n].lists| ==> WasEmpty(ss, i, b, n)
  {
    assert StepAt(ss, ts, es, n);
    b := PassedEmpty(ss, ts, es, n, ts[n]);
    forall i | 0 <= i < |ss[n].lists|
      ensures WasEmpty(ss, i, b, n)
    {
      assert Passed(ss[n].threads[ts[n]].pc, i);
    }
  }
}
