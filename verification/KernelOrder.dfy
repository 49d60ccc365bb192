/**
 Semaphore queues are first come, first released: over any run, the processes released
 from a semaphore followed by those still waiting are the processes that waited at the
 start followed by those that arrived, in order, with exactly the killed waiters left out.
 */
module KernelOrder {
  import opened KernelState
  import opened KernelInvariant
  import opened KernelSteps
  import opened KernelSafety
  import opened KernelRuns

  /** The process that one step adds to the queue of `sem`. */
  function Arrived(s: KState, op: Op, sem: int): seq<int>
    requires 0 <= sem < NSEM
  {
    var arrives := (op.WaitFor? || op.Getbuf?) && Target(s, op) == sem;
    if arrives && s.sems[sem].used && s.sems[sem].count <= 0 then [s.currpid] else []
  }

  /** The processes that one step releases from the queue of `sem`, in the order they become ready. */
  function Released(s: KState, op: Op, sem: int): seq<int>
    requires 0 <= sem < NSEM
  {
    if Target(s, op) != sem then []
    else if op.Semdelete? || (op.Semreset? && op.count >= 0) then s.lists[sem]
    else s.lists[sem][..Min(Signals(s, op, sem), |s.lists[sem]|)]
  }

  /** A kill takes a waiter out of the middle of the queue. */
  predicate KillsWaiter(s: KState, op: Op, sem: int)
    requires CurrInRange(s)
  {
    var v := Victim(s, op);
    0 <= v < NPROC && s.procs[v].state.Wait? && s.procs[v].sem == sem
  }

  /** The waiters a step does not kill. */
  function Left(s: KState, op: Op, sem: int): seq<int>
    requires CurrInRange(s) && 0 <= sem < NSEM
  {
    if KillsWaiter(s, op, sem) then Remove(s.lists[sem], Victim(s, op)) else s.lists[sem]
  }

  // ---- the effect of each operation on a semaphore queue ---------------------------

  lemma QuietLists(s: KState, op: Op, sem: int)
    requires CurrInRange(s) && 0 <= sem < NSEM
    requires op.Yield? || op.Create? || op.Resume? || op.Suspend? || op.Sleepms? || op.Start? || op.Stop?
        || op.Semcreate? || op.Mkbufpool?
    ensures Step(s, op).lists[sem] == s.lists[sem]
  {
    hide Resched, W32, DeltaPos, KeyPos, FindPid, FindSem;
  }

  lemma SendLists(s: KState, pid: int, msg: int, sem: int)
    requires CurrInRange(s) && 0 <= sem < NSEM
    ensures SendOp(s, pid, msg).lists[sem] == s.lists[sem]
  {
    hide Resched, W32, KeyPos;
  }

  lemma QuietMessageLists(s: KState, op: Op, sem: int)
    requires CurrInRange(s) && 0 <= sem < NSEM
    requires op.Send? || op.Receive? || op.Recvclr? || op.Recvtime? || op.Kill?
    ensures Step(s, op).lists[sem] == s.lists[sem]
  {
    hide Resched, W32, DeltaPos, SendOp;
    if op.Send? {
      SendLists(s, op.pid, op.msg, sem);
    } else if op.Kill? && !BadPid(s, op.pid) {
      SendLists(SetCont(s, s.currpid, InKill(op.pid)), s.procs[op.pid].parent, op.pid, sem);
    }
  }

  lemma {:induction false} WakeLoopLists(s: KState, sem: int)
    requires 0 <= sem < NSEM
    ensures WakeLoop(s).lists[sem] == s.lists[sem]
    decreases |s.lists[SLEEPQ]|
  {
    var l := s.lists[SLEEPQ];
    if !(l == [] || !(0 <= l[0] < NPROC) || s.keys[l[0]] > 0) {
      WakeLoopLists(ReleaseFirst(s, SLEEPQ), sem);
    }
  }

  lemma TickLists(s: KState, sem: int)
    requires CurrInRange(s) && 0 <= sem < NSEM
    ensures Step(s, Tick).lists[sem] == s.lists[sem]
  {
    WakeLoopLists(DecFirst(SetCont(s, s.currpid, InTick)), sem);
    hide Resched, WakeLoop;
  }

  lemma KillLists(s: KState, p: int, sem: int)
    requires CurrInRange(s) && 0 <= p < NPROC && 0 <= sem < NSEM
    ensures KillRest(s, p).lists[sem] ==
            if s.procs[p].state.Wait? && s.procs[p].sem == sem then Remove(s.lists[sem], p) else s.lists[sem]
  {
    hide Resched, SetFree, Remove, W32;
  }

  lemma TakeBufLists(s: KState, i: int)
    ensures TakeBuf(s, i).lists == s.lists
  {
  }

  lemma FinishLists(s: KState, sem: int)
    requires CurrInRange(s) && 0 <= sem < NSEM
    ensures Step(s, Finish).lists[sem] == Left(s, Finish, sem)
  {
    hide Resched, KillRest, Remove, TakeBuf;
    var c := s.conts[s.currpid];
    if c.InKill? && 0 <= c.pid < NPROC {
      KillLists(SetCont(s, s.currpid, NoCont), c.pid, sem);
    } else if c.InGetbuf? {
      TakeBufLists(SetCont(s, s.currpid, NoCont), c.pool);
    }
  }

  lemma WaitLists(s: KState, k: int, sem: int)
    requires CurrInRange(s) && 0 <= sem < NSEM
    ensures WaitOp(s, k).lists[sem] ==
              s.lists[sem] + if k == sem && s.sems[sem].used && s.sems[sem].count <= 0 then [s.currpid] else []
  {
    hide Resched;
  }

  lemma ReleaseFirstLists(s: KState, k: int, sem: int)
    requires Core(s) && 0 <= k < NSEM && 0 <= sem < NSEM && s.lists[k] != []
    ensures ReleaseFirst(s, k).lists[sem] == if k == sem then s.lists[sem][1..] else s.lists[sem]
  {
    ReleaseFirstFrame(s, k);
  }

  lemma SignalOneLists(s: KState, k: int, sem: int)
    requires Core(s) && SemOK(s) && 0 <= k < NSEM && s.sems[k].used && 0 <= sem < NSEM
    ensures SignalOne(s, k).lists[sem] == if k == sem && s.lists[sem] != [] then s.lists[sem][1..] else s.lists[sem]
  {
    SignalOneFrame(s, k);
  }

  lemma {:induction false} SignalManyLists(s: KState, k: int, n: nat, sem: int)
    requires Core(s) && Rest(s) && 0 <= k < NSEM && s.sems[k].used && !Private(s, k) && 0 <= sem < NSEM
    ensures SignalMany(s, k, n).lists[sem] == if k == sem then s.lists[sem][Min(n, |s.lists[sem]|)..] else s.lists[sem]
    decreases n
  {
    hide CoreX, SignalOne;
    if n > 0 {
      SignalOneRest(s, k);
      SignalOneLists(s, k, sem);
      SignalManyLists(SignalOne(s, k), k, n - 1, sem);
    }
  }

  lemma SignalLists(s: KState, k: int, sem: int)
    requires Core(s) && SemOK(s) && 0 <= sem < NSEM
    ensures SignalOp(s, k).lists[sem] ==
              if k == sem && s.sems[sem].used && s.lists[sem] != [] then s.lists[sem][1..] else s.lists[sem]
  {
    if !BadSem(s, k) {
      SignalOneLists(s, k, sem);
    }
    hide Resched, SignalOne, CoreX;
  }

  lemma {:induction false} ReleaseAllLists(s: KState, k: int, sem: int)
    requires Core(s) && 0 <= k < NSEM && 0 <= sem < NSEM
    ensures ReleaseAll(s, k).lists[sem] == if k == sem then [] else s.lists[sem]
    decreases |s.lists[k]|
  {
    if s.lists[k] != [] {
      ReleaseFirstCore(s, k);
      ReleaseFirstLists(s, k, k);
      ReleaseFirstLists(s, k, sem);
      ReleaseAllLists(ReleaseFirst(s, k), k, sem);
    }
    hide CoreX, ReleaseFirst;
  }

  lemma SignalnOrder(s: KState, k: int, n: int, sem: int)
    requires Core(s) && Rest(s) && (BadSem(s, k) || !Private(s, k)) && 0 <= sem < NSEM
    ensures Released(s, Signaln(k, n), sem) + Step(s, Signaln(k, n)).lists[sem] == s.lists[sem]
  {
    assert CurrInRange(s) && (BadSem(s, k) && k == sem ==> s.lists[sem] == []);
    hide Resched, SignalMany, Private, CoreX, Rest;
    if !BadSem(s, k) && n >= 0 { SignalManyLists(s, k, n, sem); }
  }

  lemma DrainOrder(s: KState, op: Op, sem: int)
    requires Core(s) && SemOK(s) && (op.Semdelete? || op.Semreset?) && 0 <= sem < NSEM
    ensures Released(s, op, sem) + Step(s, op).lists[sem] == s.lists[sem]
  {
    assert CurrInRange(s) && (BadSem(s, op.sem) && op.sem == sem ==> s.lists[sem] == []);
    hide Resched, ReleaseAll, CoreX, SemOK;
    if !BadSem(s, op.sem) { ReleaseAllLists(s, op.sem, sem); }
  }

  lemma SyncLists(s: KState, op: Op, sem: int)
    requires Core(s) && Rest(s) && Enabled(s, op) && 0 <= sem < NSEM
    requires op.Signaln? || op.Semdelete? || op.Semreset?
    ensures Released(s, op, sem) + Step(s, op).lists[sem] == s.lists[sem]
  {
    assert SemOK(s);
    hide CoreX, Rest, SemOK, Step, Released, Private;
    if op.Signaln? {
      SignalnOrder(s, op.sem, op.count, sem);
    } else {
      DrainOrder(s, op, sem);
    }
  }

  lemma FreebufLists(s: KState, i: int, buf: int, sem: int)
    requires Core(s) && SemOK(s) && 0 <= sem < NSEM
    ensures Released(s, Freebuf(i, buf), sem) + FreebufOp(s, i, buf).lists[sem] == s.lists[sem]
  {
    if 0 <= i < |s.pools| {
      var b := s.pools[i];
      var s1 := s.(pools := s.pools[i := Pushed(b, buf)]);
      CoreIgnores(s, s1, -1);
      SignalLists(s1, b.sem, sem);
    }
    hide CoreX, SignalOp;
  }

  lemma PoolLists(s: KState, op: Op, sem: int)
    requires Core(s) && SemOK(s) && 0 <= sem < NSEM
    requires op.Getbuf? || op.Nbgetbuf? || op.Freebuf?
    ensures Released(s, op, sem) + Step(s, op).lists[sem] == s.lists[sem] + Arrived(s, op, sem)
  {
    assert CurrInRange(s);
    hide CoreX, FreebufOp, WaitOp, SemOK;
    if op.Freebuf? {
      FreebufLists(s, op.pool, op.buf, sem);
    } else if 0 <= op.pool < |s.pools| {
      WaitLists(SetCont(s, s.currpid, InGetbuf(op.pool)), s.pools[op.pool].sem, sem);
    }
  }

  lemma QuietOrder(s: KState, op: Op, sem: int)
    requires CurrInRange(s) && 0 <= sem < NSEM
    requires !op.Getbuf? && !op.Nbgetbuf? && !op.Freebuf? && !op.WaitFor? && !op.Signal? && !op.Signaln?
    requires !op.Semdelete? && !op.Semreset?
    ensures Step(s, op).lists[sem] == Left(s, op, sem)
  {
    if op.Finish? {
      FinishLists(s, sem);
    } else if op.Send? || op.Receive? || op.Recvclr? || op.Recvtime? || op.Kill? {
      QuietMessageLists(s, op, sem);
    } else if op.Tick? {
      TickLists(s, sem);
    } else {
      QuietLists(s, op, sem);
    }
    hide Step;
  }

  lemma WaitOrder(s: KState, k: int, sem: int)
    requires CurrInRange(s) && 0 <= sem < NSEM
    ensures Released(s, WaitFor(k), sem) + Step(s, WaitFor(k)).lists[sem] == s.lists[sem] + Arrived(s, WaitFor(k), sem)
  {
    WaitLists(s, k, sem);
    hide WaitOp;
  }

  lemma SignalOrder(s: KState, k: int, sem: int)
    requires Core(s) && SemOK(s) && 0 <= sem < NSEM
    ensures Released(s, Signal(k), sem) + Step(s, Signal(k)).lists[sem] == s.lists[sem] + Arrived(s, Signal(k), sem)
  {
    hide SignalOp, CoreX, SemOK;
    SignalLists(s, k, sem);
    FreeEmpty(s, sem);
    var l := s.lists[sem];
    if k == sem && l != [] {
      assert Released(s, Signal(k), sem) == l[..1];
      assert l == l[..1] + l[1..];
    } else {
      assert Released(s, Signal(k), sem) == [];
    }
  }

  lemma FreeEmpty(s: KState, sem: int)
    requires SemOK(s) && 0 <= sem < NSEM
    ensures !s.sems[sem].used ==> s.lists[sem] == []
  {
  }

  lemma NoneArrive(s: KState, op: Op, sem: int)
    requires CurrInRange(s) && 0 <= sem < NSEM && !op.WaitFor? && !op.Getbuf?
    ensures Left(s, op, sem) + Arrived(s, op, sem) == Left(s, op, sem)
  {
  }

  lemma NoneReleased(s: KState, op: Op, sem: int)
    requires CurrInRange(s) && 0 <= sem < NSEM
    requires !op.Getbuf? && !op.Nbgetbuf? && !op.Freebuf? && !op.WaitFor? && !op.Signal? && !op.Signaln?
    requires !op.Semdelete? && !op.Semreset?
    ensures Released(s, op, sem) + Left(s, op, sem) == Left(s, op, sem)
  {
  }

  lemma NoneKilled(s: KState, op: Op, sem: int)
    requires CurrInRange(s) && 0 <= sem < NSEM && !op.Finish?
    ensures Left(s, op, sem) == s.lists[sem]
  {
  }

  /** One step: released, then still waiting == waiting before and not killed, then arrived. */
  lemma OrderStep(s: KState, op: Op, sem: int)
    requires Inv(s) && Enabled(s, op) && 0 <= sem < NSEM
    ensures Released(s, op, sem) + Step(s, op).lists[sem] == Left(s, op, sem) + Arrived(s, op, sem)
    ensures KillsWaiter(s, op, sem) ==>
              Victim(s, op) in s.lists[sem] && Released(s, op, sem) == [] == Arrived(s, op, sem)
  {
    InvRuns(s);
    if KillsWaiter(s, op, sem) { AtHome(s, Victim(s, op)); }
    assert Core(s) && Rest(s) && SemOK(s);
    hide CoreX, Rest, SemOK, Running, Enabled, Inv, Step, KillsWaiter, Left;
    if !op.Finish? { NoneKilled(s, op, sem); }
    hide Released, Arrived;
    if op.Getbuf? || op.Nbgetbuf? || op.Freebuf? {
      PoolLists(s, op, sem);
    } else if op.WaitFor? {
      WaitOrder(s, op.sem, sem);
    } else if op.Signal? {
      SignalOrder(s, op.sem, sem);
    } else if op.Signaln? || op.Semdelete? || op.Semreset? {
      SyncLists(s, op, sem);
      NoneArrive(s, op, sem);
    } else {
      QuietOrder(s, op, sem);
      NoneArrive(s, op, sem);
      NoneReleased(s, op, sem);
    }
  }

  // ---- a line with some of its members left out ------------------------------------

  /** The elements whose mark is `b`, in order. */
  function Picked(a: seq<int>, marks: seq<bool>, b: bool): seq<int>
    requires |a| == |marks|
  {
    if a == [] then [] else (if marks[0] == b then [a[0]] else []) + Picked(a[1..], marks[1..], b)
  }

  /** `rest` is `line` in order, without exactly the members of `gone`. */
  ghost predicate Thinned(line: seq<int>, rest: seq<int>, gone: seq<int>) {
    exists stays: seq<bool> :: |stays| == |line| && Picked(line, stays, true) == rest
      && multiset(Picked(line, stays, false)) == multiset(gone)
  }

  lemma {:induction false} PickedConcat(a: seq<int>, b: seq<int>, x: seq<bool>, y: seq<bool>, v: bool)
    requires |a| == |x| && |b| == |y|
    ensures Picked(a + b, x + y, v) == Picked(a, x, v) + Picked(b, y, v)
    decreases |a|
  {
    if a == [] {
      assert a + b == b && x + y == y;
    } else {
      assert (a + b)[1..] == a[1..] + b && (x + y)[1..] == x[1..] + y;
      PickedConcat(a[1..], b, x[1..], y, v);
      var first, p, q := if x[0] == v then [a[0]] else [], Picked(a[1..], x[1..], v), Picked(b, y, v);
      assert first + (p + q) == (first + p) + q;
    }
  }

  lemma {:induction false} PickedAll(a: seq<int>, marks: seq<bool>)
    requires |a| == |marks| && forall i :: 0 <= i < |marks| ==> marks[i]
    ensures Picked(a, marks, true) == a && Picked(a, marks, false) == []
    decreases |a|
  {
    if a != [] { PickedAll(a[1..], marks[1..]); }
  }

  lemma ThinNothing(line: seq<int>)
    ensures Thinned(line, line, [])
  {
    var stays := seq(|line|, _ => true);
    PickedAll(line, stays);
    assert Picked(line, stays, true) == line;
  }

  lemma ThinnedBy(line: seq<int>, stays: seq<bool>, rest: seq<int>, gone: seq<int>)
    requires |stays| == |line| && Picked(line, stays, true) == rest
    requires multiset(Picked(line, stays, false)) == multiset(gone)
    ensures Thinned(line, rest, gone)
  {
  }

  /** Members that leave at the front stay in the count. */
  lemma ThinFront(front: seq<int>, line: seq<int>, rest: seq<int>, gone: seq<int>)
    requires Thinned(line, rest, gone)
    ensures Thinned(front + line, front + rest, gone)
  {
    var stays: seq<bool> :| |stays| == |line| && Picked(line, stays, true) == rest
      && multiset(Picked(line, stays, false)) == multiset(gone);
    hide Picked, Thinned;
    FrontBy(front, line, seq(|front|, _ => true), stays, rest, gone);
  }

  lemma FrontBy(front: seq<int>, line: seq<int>, all: seq<bool>, stays: seq<bool>, rest: seq<int>, gone: seq<int>)
    requires |all| == |front| && (forall i :: 0 <= i < |all| ==> all[i]) && |stays| == |line|
    requires Picked(line, stays, true) == rest && multiset(Picked(line, stays, false)) == multiset(gone)
    ensures Thinned(front + line, front + rest, gone)
  {
    hide Picked, Thinned;
    PickedAll(front, all);
    PickedConcat(front, line, all, stays, true);
    PickedConcat(front, line, all, stays, false);
    assert [] + Picked(line, stays, false) == Picked(line, stays, false);
    ThinnedBy(front + line, all + stays, front + rest, gone);
  }

  /** One member is taken out of the middle. */
  lemma ThinCut(a: seq<int>, p: int, b: seq<int>, rest: seq<int>, gone: seq<int>)
    requires Thinned(a + b, rest, gone)
    ensures Thinned(a + [p] + b, rest, [p] + gone)
  {
    var stays: seq<bool> :| |stays| == |a + b| && Picked(a + b, stays, true) == rest
      && multiset(Picked(a + b, stays, false)) == multiset(gone);
    hide Picked, Thinned;
    CutBy(a, p, b, stays[..|a|], stays[|a|..], stays, rest, gone);
  }

  lemma CutBy(a: seq<int>, p: int, b: seq<int>, x: seq<bool>, y: seq<bool>, stays: seq<bool>, rest: seq<int>,
              gone: seq<int>)
    requires |a| == |x| && |b| == |y| && stays == x + y && Picked(a + b, stays, true) == rest
    requires multiset(Picked(a + b, stays, false)) == multiset(gone)
    ensures Thinned(a + [p] + b, rest, [p] + gone)
  {
    hide Picked, Thinned;
    PickedCut(a, p, b, x, y, true);
    PickedCut(a, p, b, x, y, false);
    MultisetCut(Picked(a, x, false), p, Picked(b, y, false), gone);
    assert Picked(a, x, true) + [] + Picked(b, y, true) == rest;
    ThinnedBy(a + [p] + b, x + [false] + y, rest, [p] + gone);
  }

  lemma MultisetCut(a: seq<int>, p: int, b: seq<int>, gone: seq<int>)
    requires multiset(a + b) == multiset(gone)
    ensures multiset(a + [p] + b) == multiset([p] + gone)
  {
  }

  lemma PickedCut(a: seq<int>, p: int, b: seq<int>, x: seq<bool>, y: seq<bool>, v: bool)
    requires |a| == |x| && |b| == |y|
    ensures Picked(a + [p] + b, x + [false] + y, v) == Picked(a, x, v) + (if v then [] else [p]) + Picked(b, y, v)
    ensures Picked(a + b, x + y, v) == Picked(a, x, v) + Picked(b, y, v)
  {
    assert Picked([p], [false], v) == (if v then [] else [p]) + Picked([p][1..], [false][1..], v);
    hide Picked;
    PickedConcat(a + [p], b, x + [false], y, v);
    PickedConcat(a, [p], x, [false], v);
    PickedConcat(a, b, x, y, v);
  }

  /** With nobody left out the line is the same. */
  lemma {:induction false} ThinExact(line: seq<int>, rest: seq<int>)
    requires Thinned(line, rest, [])
    ensures line == rest
  {
    var stays: seq<bool> :| |stays| == |line| && Picked(line, stays, true) == rest
      && multiset(Picked(line, stays, false)) == multiset([]);
    assert |Picked(line, stays, false)| == 0;
    NonePicked(line, stays);
  }

  lemma {:induction false} NonePicked(a: seq<int>, marks: seq<bool>)
    requires |a| == |marks| && Picked(a, marks, false) == []
    ensures Picked(a, marks, true) == a
    decreases |a|
  {
    if a != [] { NonePicked(a[1..], marks[1..]); }
  }

  // ---- whole runs ------------------------------------------------------------------

  ghost function AllReleased(s: KState, ops: seq<Op>, sem: int): seq<int>
    requires Legal(s, ops) && 0 <= sem < NSEM
    decreases |ops|
  {
    if ops == [] then [] else Released(s, ops[0], sem) + AllReleased(Step(s, ops[0]), ops[1..], sem)
  }

  ghost function AllArrived(s: KState, ops: seq<Op>, sem: int): seq<int>
    requires Legal(s, ops) && 0 <= sem < NSEM
    decreases |ops|
  {
    if ops == [] then [] else Arrived(s, ops[0], sem) + AllArrived(Step(s, ops[0]), ops[1..], sem)
  }

  /** The processes killed while they waited on `sem`. */
  ghost function AllKilled(s: KState, ops: seq<Op>, sem: int): seq<int>
    requires Legal(s, ops) && 0 <= sem < NSEM
    decreases |ops|
  {
    if ops == [] then []
    else (if KillsWaiter(s, ops[0], sem) then [Victim(s, ops[0])] else []) + AllKilled(Step(s, ops[0]), ops[1..], sem)
  }

  /** A step that kills `p` cuts it out of the line. */
  lemma KillThins(q: seq<int>, p: int, more: seq<int>, rest: seq<int>, gone: seq<int>)
    requires p in q && Thinned(Remove(q, p) + more, rest, gone)
    ensures Thinned(q + more, rest, [p] + gone)
  {
    var i := IndexOf(q, p);
    hide Thinned, IndexOf;
    assert q[..i] + q[i + 1..] + more == q[..i] + (q[i + 1..] + more);
    ThinCut(q[..i], p, q[i + 1..] + more, rest, gone);
    assert q[..i] + [p] + (q[i + 1..] + more) == q + more;
  }

  /** Any other step moves the front of the line to the released. */
  lemma StepThins(q: seq<int>, a: seq<int>, r: seq<int>, q': seq<int>, more: seq<int>, r': seq<int>, e: seq<int>,
                  gone: seq<int>)
    requires r + q' == q + a && Thinned(q' + more, r' + e, gone)
    ensures Thinned(q + (a + more), (r + r') + e, gone)
  {
    hide Thinned;
    ThinFront(r, q' + more, r' + e, gone);
    assert r + (q' + more) == (r + q') + more == q + (a + more);
    assert r + (r' + e) == (r + r') + e;
  }

  /** Over every run: the released processes followed by those still waiting are the initial
      queue followed by all arrivals, in order, without exactly the killed waiters. */
  lemma {:induction false} FirstComeFirstReleased(s: KState, ops: seq<Op>, sem: int)
    requires Inv(s) && Legal(s, ops) && 0 <= sem < NSEM
    ensures Thinned(s.lists[sem] + AllArrived(s, ops, sem), AllReleased(s, ops, sem) + Exec(s, ops).lists[sem],
                    AllKilled(s, ops, sem))
    decreases |ops|
  {
    hide Inv, Step, Released, Arrived, KillsWaiter, Thinned, Enabled, Remove, Victim;
    if ops == [] {
      assert s.lists[sem] + [] == s.lists[sem] == [] + s.lists[sem];
      ThinNothing(s.lists[sem]);
    } else {
      var op, rest := ops[0], ops[1..];
      InvRuns(s);
      var t := Step(s, op);
      OrderStep(s, op, sem);
      StepInv(s, op);
      FirstComeFirstReleased(t, rest, sem);
      var q, r, a := s.lists[sem], Released(s, op, sem), Arrived(s, op, sem);
      var r', a' := AllReleased(t, rest, sem), AllArrived(t, rest, sem);
      var e, k := Exec(t, rest).lists[sem], AllKilled(t, rest, sem);
      if KillsWaiter(s, op, sem) {
        assert [] + t.lists[sem] == t.lists[sem] && Left(s, op, sem) + [] == Left(s, op, sem);
        assert [] + r' == r' && [] + a' == a';
        KillThins(q, Victim(s, op), a', r' + e, k);
      } else {
        assert [] + k == k;
        StepThins(q, a, r, t.lists[sem], a', r', e, k);
      }
    }
  }

  /** In particular, without kills the order is exactly that of arrival. */
  lemma ArrivalOrder(s: KState, ops: seq<Op>, sem: int)
    requires Inv(s) && Legal(s, ops) && 0 <= sem < NSEM && AllKilled(s, ops, sem) == []
    ensures AllReleased(s, ops, sem) + Exec(s, ops).lists[sem] == s.lists[sem] + AllArrived(s, ops, sem)
  {
    hide Inv, Thinned;
    FirstComeFirstReleased(s, ops, sem);
    ThinExact(s.lists[sem] + AllArrived(s, ops, sem), AllReleased(s, ops, sem) + Exec(s, ops).lists[sem]);
  }
}
