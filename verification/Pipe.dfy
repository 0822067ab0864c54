/** The pipe of kernel/pipe.c with the file reference counts of kernel/file.c, as a step system:
    any number of readers and writers, one byte at a time, in any order; descriptors are
    duplicated and closed in between. */
module Pipe {
  import Counting

  const PIPESIZE := 512
  const WRAP := 0x1_0000_0000 // nread and nwrite are 32-bit counters

  /** One end: the references to its file, the processes inside pipewrite() or piperead(), and
      whether fileclose() has dropped the last reference but not yet called pipeclose(). */
  datatype End = End(refs: nat, busy: nat, closing: bool, open: bool)

  /** freed counts the calls of kfree() on the page; sent and taken are the bytes put into and
      taken from the ring so far. */
  datatype State = State(data: seq<int>, nread: nat, nwrite: nat, r: End, w: End, freed: nat,
                         sent: seq<int>, taken: seq<int>)

  datatype Side = Reader | Writer

  datatype Action =
    | Dup(side: Side)      // filedup()
    | Enter(side: Side)    // a process calls pipewrite() or piperead()
    | Leave(side: Side)
    | Put(ch: int)         // one byte of pipewrite()
    | Take                 // one byte of piperead(), whether or not copyout() then succeeds
    | Drop(side: Side)     // fileclose() gives up a reference
    | Close(side: Side)    // pipeclose() after the last one

  function Get(s: State, side: Side): End { if side.Reader? then s.r else s.w }
  function Set(s: State, side: Side, e: End): State { if side.Reader? then s.(r := e) else s.(w := e) }

  /** The full test of pipewrite(), in 32-bit arithmetic. */
  predicate Full(s: State) { s.nwrite == (s.nread + PIPESIZE) % WRAP }

  ghost predicate Step(s: State, a: Action, s': State) {
    && |s.data| == PIPESIZE
    && match a
      case Dup(side) =>
        var e := Get(s, side);
        e.refs > 0 && s' == Set(s, side, e.(refs := e.refs + 1))
      case Enter(side) =>
        // the caller's own descriptor stays open for the whole call
        var e := Get(s, side);
        e.refs > e.busy && s' == Set(s, side, e.(busy := e.busy + 1))
      case Leave(side) =>
        var e := Get(s, side);
        e.busy > 0 && s' == Set(s, side, e.(busy := e.busy - 1))
      case Put(ch) =>
        && s.w.busy > 0 && s.r.open && !Full(s)
        && s' == s.(data := s.data[s.nwrite % PIPESIZE := ch], nwrite := (s.nwrite + 1) % WRAP, sent := s.sent + [ch])
      case Take =>
        && s.r.busy > 0 && s.nread != s.nwrite
        && s' == s.(nread := (s.nread + 1) % WRAP, taken := s.taken + [s.data[s.nread % PIPESIZE]])
      case Drop(side) =>
        var e := Get(s, side);
        e.refs > e.busy && s' == Set(s, side, e.(refs := e.refs - 1, closing := e.refs == 1))
      case Close(side) =>
        var e := Get(s, side);
        && e.closing
        && var s1 := Set(s, side, e.(closing := false, open := false));
        s' == if s1.r.open || s1.w.open then s1 else s1.(freed := s1.freed + 1)
  }

  /** pipealloc(). */
  ghost predicate Init(s: State) {
    && |s.data| == PIPESIZE && s.nread == 0 && s.nwrite == 0
    && s.r == End(1, 0, false, true) && s.w == End(1, 0, false, true)
    && s.freed == 0 && s.sent == [] && s.taken == []
  }

  /** The ring holds the bytes sent and not yet taken. */
  ghost predicate RingOk(s: State) {
    && |s.data| == PIPESIZE && s.taken <= s.sent && |s.sent| <= |s.taken| + PIPESIZE
    && s.nread == |s.taken| % WRAP && s.nwrite == |s.sent| % WRAP
    && forall k :: |s.taken| <= k < |s.sent| ==> Held(s, k)
  }

  ghost predicate Held(s: State, k: nat)
    requires |s.data| == PIPESIZE && k < |s.sent|
  {
    s.data[k % PIPESIZE] == s.sent[k]
  }

  ghost predicate EndOk(e: End) {
    && e.busy <= e.refs && (e.open <==> e.refs > 0 || e.closing) && (e.closing ==> e.refs == 0)
  }

  ghost predicate Inv(s: State) {
    && RingOk(s) && EndOk(s.r) && EndOk(s.w)
    && s.freed == if s.r.open || s.w.open then 0 else 1
  }

  lemma Sizes(s: State)
    requires RingOk(s)
    ensures |s.data| == PIPESIZE && |s.taken| <= |s.sent|
  {
  }

  /** The full and empty tests mean what they say. */
  lemma Tests(s: State)
    requires RingOk(s)
    ensures Full(s) <==> |s.sent| == |s.taken| + PIPESIZE
    ensures s.nread == s.nwrite <==> |s.sent| == |s.taken|
    ensures s.nwrite % PIPESIZE == |s.sent| % PIPESIZE && s.nread % PIPESIZE == |s.taken| % PIPESIZE
  {
    Counting.WrapIndex(|s.taken|, PIPESIZE, WRAP / PIPESIZE);
    Counting.WrapIndex(|s.sent|, PIPESIZE, WRAP / PIPESIZE);
    Counting.WrapAdd(|s.taken|, PIPESIZE, WRAP);
    Counting.WrapEqual(|s.taken|, |s.sent|, WRAP);
    Counting.WrapEqual(|s.sent|, |s.taken| + PIPESIZE, WRAP);
  }

  lemma PutRing(s: State, ch: int, s': State)
    requires RingOk(s) && !Full(s)
    requires s'.data == s.data[s.nwrite % PIPESIZE := ch] && s'.nwrite == (s.nwrite + 1) % WRAP && s'.nread == s.nread
    requires s'.sent == s.sent + [ch] && s'.taken == s.taken
    ensures RingOk(s')
  {
    Tests(s);
    Counting.WrapAdd(|s.sent|, 1, WRAP);
    forall k | |s'.taken| <= k < |s'.sent|
      ensures Held(s', k)
    {
      if k < |s.sent| {
        assert Held(s, k);
        Counting.WrapEqual(k, |s.sent|, PIPESIZE);
      }
    }
  }

  lemma TakeRing(s: State, s': State)
    requires RingOk(s) && s.nread != s.nwrite
    requires s'.data == s.data && s'.nread == (s.nread + 1) % WRAP && s'.nwrite == s.nwrite
    requires s'.taken == s.taken + [s.data[s.nread % PIPESIZE]] && s'.sent == s.sent
    ensures RingOk(s')
  {
    Tests(s);
    Counting.WrapAdd(|s.taken|, 1, WRAP);
    assert Held(s, |s.taken|);
    forall k | |s'.taken| <= k < |s'.sent|
      ensures Held(s', k)
    {
      assert Held(s, k);
    }
  }

  lemma StepKeeps(s: State, a: Action, s': State)
    requires Inv(s) && Step(s, a, s')
    ensures Inv(s')
  {
    match a
    case Put(ch) => PutRing(s, ch, s');
    case Take => TakeRing(s, s');
    case _ =>
      assert forall k :: |s'.taken| <= k < |s'.sent| ==> Held(s, k) ==> Held(s', k);
  }

  // ---------------------------------------------------------------- runs

  ghost predicate StepAt(ss: seq<State>, es: seq<Action>, i: nat)
    requires i < |es| && |ss| == |es| + 1
  {
    Step(ss[i], es[i], ss[i + 1])
  }

  ghost predicate IsRun(ss: seq<State>, es: seq<Action>) {
    |ss| == |es| + 1 && Init(ss[0]) && forall i :: 0 <= i < |es| ==> StepAt(ss, es, i)
  }

  lemma {:induction false} RunInv(ss: seq<State>, es: seq<Action>, i: nat)
    requires IsRun(ss, es) && i < |ss|
    ensures Inv(ss[i])
  {
    if i > 0 {
      RunInv(ss, es, i - 1);
      assert StepAt(ss, es, i - 1);
      StepKeeps(ss[i - 1], es[i - 1], ss[i]);
    }
  }

  /** How many of these actions are up, less those that are down. */
  function Balance(es: seq<Action>, up: Action, down: Action): int {
    if es == [] then 0
    else
      var last := es[|es| - 1];
      Balance(es[..|es| - 1], up, down) + if last == up then 1 else if last == down then -1 else 0
  }

  /** The bytes that these actions write. */
  function Puts(es: seq<Action>): seq<int> {
    if es == [] then []
    else
      var last := es[|es| - 1];
      Puts(es[..|es| - 1]) + if last.Put? then [last.ch] else []
  }

  lemma AccountStep(s: State, a: Action, s': State, side: Side)
    requires Step(s, a, s')
    ensures Get(s', side).refs == Get(s, side).refs + if a == Dup(side) then 1 else if a == Drop(side) then -1 else 0
    ensures Get(s', side).busy == Get(s, side).busy + if a == Enter(side) then 1 else if a == Leave(side) then -1 else 0
    ensures s'.sent == s.sent + if a.Put? then [a.ch] else []
  {
  }

  /** In every run the reference count of an end is the number of its descriptors: the first one, and
      those duplicated, less those closed; its users are those that have called and not returned;
      and the bytes sent are the bytes written, in order. */
  lemma {:induction false} Accounts(ss: seq<State>, es: seq<Action>, i: nat, side: Side)
    requires IsRun(ss, es) && i < |ss|
    ensures Get(ss[i], side).refs == 1 + Balance(es[..i], Dup(side), Drop(side))
    ensures Get(ss[i], side).busy == Balance(es[..i], Enter(side), Leave(side))
    ensures ss[i].sent == Puts(es[..i])
  {
    hide Step;
    if i > 0 {
      Accounts(ss, es, i - 1, side);
      assert StepAt(ss, es, i - 1);
      AccountStep(ss[i - 1], es[i - 1], ss[i], side);
      assert es[..i][..i - 1] == es[..i - 1];
    }
  }

  /** In every run the bytes taken are, in order, a prefix of the bytes put in, and at most
      PIPESIZE are outstanding. */
  lemma PipeFifo(ss: seq<State>, es: seq<Action>, i: nat)
    requires IsRun(ss, es) && i < |ss|
    ensures ss[i].taken <= ss[i].sent && |ss[i].sent| - |ss[i].taken| <= PIPESIZE
  {
    RunInv(ss, es, i);
  }

  /** Once the read end is closed, or nobody has the write end, no byte is sent any more; once nobody
      has the read end, none is taken. */
  lemma {:induction false} ClosedEnds(ss: seq<State>, es: seq<Action>, j: nat, i: nat)
    requires IsRun(ss, es) && j <= i < |ss|
    ensures !ss[j].r.open ==> !ss[i].r.open && ss[i].sent == ss[j].sent
    ensures ss[j].w.refs == 0 ==> ss[i].w.refs == 0 && ss[i].sent == ss[j].sent
    ensures ss[j].r.refs == 0 ==> ss[i].r.refs == 0 && ss[i].taken == ss[j].taken
  {
    if j < i {
      ClosedEnds(ss, es, j, i - 1);
      RunInv(ss, es, i - 1);
      assert StepAt(ss, es, i - 1);
    }
  }

  /** In every run the page is freed once, exactly when both ends are closed, and no byte moves
      after that. */
  lemma FreedOnce(ss: seq<State>, es: seq<Action>, i: nat)
    requires IsRun(ss, es) && i < |ss|
    ensures ss[i].freed <= 1 && (ss[i].freed == 1 <==> !ss[i].r.open && !ss[i].w.open)
    ensures ss[i].freed == 1 ==> ss[i].r.refs == 0 && ss[i].w.refs == 0
    ensures i < |es| && (es[i].Put? || es[i].Take? || es[i].Close?) ==> ss[i].freed == 0
  {
    RunInv(ss, es, i);
    if i < |es| {
      assert StepAt(ss, es, i);
    }
  }
}

/** The loops of pipewrite() and piperead() between two sleeps, on the ring itself. */
module PipeCode {
  import opened Pipe

  datatype Outcome = Done | Asleep | Failed

  function Least(a: int, b: int, c: int): (r: int)
    ensures r <= a && r <= b && r <= c && (r == a || r == b || r == c)
  {
    if a <= b && a <= c then a else if b <= c then b else c
  }

  class Ring {
    const data: array<int>
    var nread: nat
    var nwrite: nat
    var readopen: bool
    var writeopen: bool
    ghost var sent: seq<int>
    ghost var taken: seq<int>

    ghost function S(): State
      reads this, data
    {
      State(data[..], nread, nwrite, End(0, 0, false, readopen), End(0, 0, false, writeopen), 0, sent, taken)
    }

    ghost predicate Valid()
      reads this, data
    {
      RingOk(S())
    }

    constructor ()
      ensures Valid() && sent == [] && taken == [] && readopen && writeopen && fresh(data)
    {
      data := new int[PIPESIZE](i => 0);
      nread, nwrite, readopen, writeopen := 0, 0, true, true;
      sent, taken := [], [];
    }

    /** pipewrite() from byte i of src until it has to sleep or is done; lim bytes of src can be
        read.  What goes into the ring is the next bytes of src, in order. */
    method Write(src: seq<int>, from: nat, lim: nat, killed: bool) returns (i: nat, o: Outcome)
      requires Valid() && from <= |src|
      modifies this, data
      ensures Valid() && taken == old(taken) && from <= i <= |src| && sent == old(sent) + src[from..i]
      ensures readopen == old(readopen) && writeopen == old(writeopen)
      ensures o == Failed <==> from < |src| && (!readopen || killed)
      ensures o == Asleep <==> i < |src| && readopen && !killed && |sent| == |taken| + PIPESIZE
      ensures o == Failed ==> i == from
      ensures o == Done ==> i == |src| || i >= lim
      ensures i == from || i <= lim
    {
      hide RingOk;
      i := from;
      while i < |src|
        invariant from <= i <= |src| && Valid() && taken == old(taken) && sent == old(sent) + src[from..i]
        invariant i == from || (i <= lim && readopen && !killed)
        invariant readopen == old(readopen) && writeopen == old(writeopen)
      {
        if !readopen || killed {
          return i, Failed;
        }
        Sizes(S());
        Tests(S());
        if nwrite == (nread + PIPESIZE) % WRAP {
          return i, Asleep;
        }
        if i >= lim {
          return i, Done;
        }
        ghost var s := S();
        data[nwrite % PIPESIZE] := src[i];
        nwrite := (nwrite + 1) % WRAP;
        sent := sent + [src[i]];
        PutRing(s, src[i], S());
        assert src[from..i + 1] == src[from..i] + [src[i]];
        i := i + 1;
      }
      o := Done;
    }

    /** piperead() once it does not have to wait: up to n bytes, the oldest first.  If the user's
        buffer ends after lim bytes, the byte that does not fit is taken all the same. */
    method Read(n: nat, lim: nat) returns (i: nat, dst: seq<int>)
      requires Valid()
      modifies this
      ensures Valid() && sent == old(sent) && |dst| == i
      ensures i == Least(n, lim, |old(sent)| - |old(taken)|)
      ensures |taken| == |old(taken)| + i + if lim < n && lim < |old(sent)| - |old(taken)| then 1 else 0
      ensures taken[..|old(taken)| + i] == old(taken) + dst
      ensures readopen == old(readopen) && writeopen == old(writeopen)
    {
      hide RingOk;
      Sizes(S());
      i, dst := 0, [];
      while i < n
        invariant i <= n && i <= lim && |dst| == i && Valid() && sent == old(sent) && taken == old(taken) + dst
        invariant i <= |sent| - |old(taken)|
        invariant readopen == old(readopen) && writeopen == old(writeopen)
      {
        Sizes(S());
        Tests(S());
        if nread == nwrite {
          return;
        }
        ghost var s := S();
        var ch := data[nread % PIPESIZE];
        nread := (nread + 1) % WRAP;
        taken := taken + [ch];
        TakeRing(s, S());
        assert old(taken) + dst + [ch] == old(taken) + (dst + [ch]);
        if i >= lim {
          return;
        }
        dst := dst + [ch];
        i := i + 1;
      }
    }
  }
}
