/**
 Message delivery: every message that `send` accepts for a process is returned by exactly
 one later receive of that process, in order.
 */
module KernelMessages {
  import opened Wrappers
  import opened KernelState
  import opened KernelSteps
  import opened KernelRuns

  /** The message box of a process, as a sequence of at most one message. */
  function Box(s: KState, p: int): seq<int>
    requires 0 <= p < NPROC
  {
    if s.procs[p].hasmsg then [s.procs[p].msg] else []
  }

  predicate Accepts(s: KState, pid: int) { !BadPid(s, pid) && !s.procs[pid].hasmsg }

  /** Messages accepted for `p` by one step; `kill` sends the victim's id to its parent. */
  function Sent(s: KState, op: Op, p: int): seq<int> {
    match op
    case Send(q, m) => if q == p && Accepts(s, p) then [m] else []
    case Kill(q) => if !BadPid(s, q) && q != NULLPROC && s.procs[q].parent == p && Accepts(s, p) then [q] else []
    case _ => []
  }

  /** Messages returned to `p` by one step of `recvclr`, `receive` or `recvtime`. */
  function Got(s: KState, op: Op, p: int): seq<int>
    requires CurrInRange(s) && 0 <= p < NPROC
  {
    var receiving := op.Recvclr? || (op.Finish? && (s.conts[s.currpid].InReceive? || s.conts[s.currpid].InRecvtime?));
    if p == s.currpid && receiving then Box(s, p) else []
  }

  /** A new process starts with an empty box. */
  predicate Creates(s: KState, op: Op, p: int) {
    op.Create? && op.stack && op.prio >= 1 && FindPid(s.procs, s.nextpid, 0) == Some(p)
  }

  // ---- who leaves the box of `p` alone ---------------------------------------------

  lemma ReschedBox(s: KState, p: int)
    requires CurrInRange(s) && 0 <= p < NPROC
    ensures Box(Resched(s), p) == Box(s, p)
  {
  }

  lemma SleepBox(s: KState, d: int, p: int)
    requires CurrInRange(s) && 0 <= p < NPROC
    ensures Box(SleepmsOp(s, d), p) == Box(s, p)
  {
    hide Resched, W32, DeltaPos;
    ReschedBox(s, p);
    ReschedBox(SetState(InsertD(s, s.currpid, W32(d)), s.currpid, Sleep), p);
  }

  lemma QuietBox(s: KState, op: Op, p: int)
    requires CurrInRange(s) && 0 <= p < NPROC
    requires op.Yield? || op.Resume? || op.Suspend? || op.Sleepms? || op.Start? || op.Stop? || op.Semcreate?
        || op.Mkbufpool?
    ensures Box(Step(s, op), p) == Box(s, p)
  {
    hide Resched, SleepmsOp, KeyPos, FindSem;
    match op
    case Yield => ReschedBox(s, p);
    case Resume(q) => if !BadPid(s, q) { ReschedBox(MakeReady(s, q), p); }
    case Suspend(q) => if !BadPid(s, q) { ReschedBox(SetState(s, q, Susp), p); }
    case Sleepms(d) => SleepBox(s, d, p);
    case Stop => ReschedBox(s.(ndefers := s.ndefers - 1), p);
    case _ =>
  }

  lemma WaitBox(s: KState, k: int, p: int)
    requires CurrInRange(s) && 0 <= p < NPROC
    ensures Box(WaitOp(s, k), p) == Box(s, p)
  {
    if !BadSem(s, k) && s.sems[k].count <= 0 {
      var s1 := SetCount(s, k, s.sems[k].count - 1);
      ReschedBox(Enqueue(SetProc(s1, s1.currpid, s1.procs[s1.currpid].(state := Wait, sem := k)), s1.currpid, k), p);
    }
    hide Resched;
  }

  lemma SignalOneBox(s: KState, k: int, p: int)
    requires 0 <= k < NSEM && 0 <= p < NPROC
    ensures Box(SignalOne(s, k), p) == Box(s, p)
  {
  }

  lemma SignalBox(s: KState, k: int, p: int)
    requires CurrInRange(s) && 0 <= p < NPROC
    ensures Box(SignalOp(s, k), p) == Box(s, p)
  {
    if !BadSem(s, k) {
      SignalOneBox(s, k, p);
      if s.sems[k].count < 0 { ReschedBox(SignalOne(s, k), p); }
    }
    hide Resched, ReleaseFirst;
  }

  lemma {:induction false} SignalManyBox(s: KState, k: int, n: nat, p: int)
    requires 0 <= k < NSEM && 0 <= p < NPROC
    ensures Box(SignalMany(s, k, n), p) == Box(s, p)
    decreases n
  {
    hide SignalOne;
    if n > 0 {
      SignalOneBox(s, k, p);
      SignalManyBox(SignalOne(s, k), k, n - 1, p);
    }
  }

  lemma {:induction false} ReleaseAllBox(s: KState, k: int, p: int)
    requires 0 <= k < NLISTS && k != READYQ && 0 <= p < NPROC
    ensures Box(ReleaseAll(s, k), p) == Box(s, p)
    decreases |s.lists[k]|
  {
    if !(s.lists[k] == [] || !(0 <= s.lists[k][0] < NPROC)) {
      ReleaseAllBox(ReleaseFirst(s, k), k, p);
    }
  }

  lemma {:induction false} WakeLoopBox(s: KState, p: int)
    requires 0 <= p < NPROC
    ensures Box(WakeLoop(s), p) == Box(s, p)
    decreases |s.lists[SLEEPQ]|
  {
    var l := s.lists[SLEEPQ];
    if !(l == [] || !(0 <= l[0] < NPROC) || s.keys[l[0]] > 0) {
      WakeLoopBox(ReleaseFirst(s, SLEEPQ), p);
    }
  }

  lemma SignalnBox(s: KState, k: int, n: int, p: int)
    requires CurrInRange(s) && 0 <= p < NPROC
    ensures Box(SignalnOp(s, k, n), p) == Box(s, p)
  {
    if !BadSem(s, k) && n >= 0 {
      SignalManyBox(s, k, n, p);
      ReschedBox(SignalMany(s, k, n), p);
    }
    hide Resched, SignalMany;
  }

  lemma SemdeleteBox(s: KState, k: int, p: int)
    requires CurrInRange(s) && 0 <= p < NPROC
    ensures Box(SemdeleteOp(s, k), p) == Box(s, p)
  {
    if !BadSem(s, k) {
      var t := ReleaseAll(s, k);
      ReleaseAllBox(s, k, p);
      ReschedBox(SetSem(t, k, Sem(false, Pos(s.sems[k].count) + 1)), p);
    }
    hide Resched, ReleaseAll, Pos;
  }

  lemma SemresetBox(s: KState, k: int, n: int, p: int)
    requires CurrInRange(s) && 0 <= p < NPROC
    ensures Box(SemresetOp(s, k, n), p) == Box(s, p)
  {
    if n >= 0 && !BadSem(s, k) {
      ReleaseAllBox(s, k, p);
      ReschedBox(SetCount(ReleaseAll(s, k), k, n), p);
    }
    hide Resched, ReleaseAll;
  }

  lemma TickBox(s: KState, p: int)
    requires CurrInRange(s) && 0 <= p < NPROC
    ensures Box(TickOp(s), p) == Box(s, p)
  {
    var s1 := DecFirst(SetCont(s, s.currpid, InTick));
    WakeLoopBox(s1, p);
    ReschedBox(WakeLoop(s1), p);
    hide Resched, WakeLoop;
  }

  lemma PoolBox(s: KState, op: Op, p: int)
    requires CurrInRange(s) && 0 <= p < NPROC && (op.Getbuf? || op.Nbgetbuf? || op.Freebuf?)
    ensures Box(Step(s, op), p) == Box(s, p)
  {
    hide WaitOp, SignalOp;
    if 0 <= op.pool < |s.pools| {
      var b := s.pools[op.pool];
      if op.Freebuf? {
        SignalBox(s.(pools := s.pools[op.pool := Pushed(b, op.buf)]), b.sem, p);
      } else {
        WaitBox(SetCont(s, s.currpid, InGetbuf(op.pool)), b.sem, p);
      }
    }
  }

  // ---- who changes it --------------------------------------------------------------

  lemma SendBox(s: KState, pid: int, msg: int, p: int)
    requires CurrInRange(s) && 0 <= p < NPROC
    ensures Box(SendOp(s, pid, msg), p) == Box(s, p) + if pid == p && Accepts(s, p) then [msg] else []
  {
    hide Resched, W32, KeyPos;
    if Accepts(s, pid) {
      var s1 := SetProc(s, pid, s.procs[pid].(msg := msg, hasmsg := true));
      ReschedBox(MakeReady(s1, pid), p);
      ReschedBox(MakeReady(Unsleep(s1, pid), pid), p);
    }
  }

  lemma SetFreeBox(s: KState, q: int, p: int)
    requires 0 <= p < NPROC && 0 <= q < NPROC
    ensures Box(SetFree(s, q), p) == Box(s, p)
  {
  }

  lemma KillRestBox(s: KState, q: int, p: int)
    requires CurrInRange(s) && 0 <= p < NPROC && 0 <= q < NPROC
    ensures Box(KillRest(s, q), p) == Box(s, p)
  {
    hide Resched, SetFree, Remove, W32;
    var pr := s.procs[q];
    match pr.state
    case Curr => SetFreeBox(s, q, p); ReschedBox(SetFree(s, q), p);
    case Sleep => SetFreeBox(Unsleep(s, q), q, p);
    case RecTim => SetFreeBox(Unsleep(s, q), q, p);
    case Wait =>
      if 0 <= pr.sem < NSEM { SetFreeBox(Unlink(SetCount(s, pr.sem, s.sems[pr.sem].count + 1), q, pr.sem), q, p); }
    case Ready => SetFreeBox(Unlink(s, q, READYQ), q, p);
    case _ => SetFreeBox(s, q, p);
  }

  lemma TakeBufBox(s: KState, i: int, p: int)
    requires 0 <= p < NPROC
    ensures Box(TakeBuf(s, i), p) == Box(s, p)
  {
  }

  lemma FinishBox(s: KState, p: int)
    requires CurrInRange(s) && 0 <= p < NPROC
    ensures Got(s, Finish, p) + Box(FinishOp(s), p) == Box(s, p)
  {
    hide KillRest, Resched, TakeBuf;
    var c := s.conts[s.currpid];
    var s1 := SetCont(s, s.currpid, NoCont);
    if c.InKill? && 0 <= c.pid < NPROC {
      KillRestBox(s1, c.pid, p);
    } else if c.InTick? {
      ReschedBox(s1.(preempt := QUANTUM), p);
    } else if c.InGetbuf? {
      TakeBufBox(s1, c.pool, p);
    }
  }

  lemma ReceiveBox(s: KState, op: Op, p: int)
    requires CurrInRange(s) && 0 <= p < NPROC && (op.Receive? || op.Recvtime?)
    ensures Box(Step(s, op), p) == Box(s, p)
  {
    var c := s.currpid;
    if op.Receive? {
      ReschedBox(SetState(SetCont(s, c, InReceive), c, Recv), p);
    } else {
      ReschedBox(SetState(InsertD(SetCont(s, c, InRecvtime), c, op.maxwait), c, RecTim), p);
    }
    hide Resched, DeltaPos, W32;
  }

  lemma KillBox(s: KState, q: int, p: int)
    requires CurrInRange(s) && 0 <= p < NPROC
    ensures Box(KillOp(s, q), p) == Box(s, p) + Sent(s, Kill(q), p)
  {
    if !BadPid(s, q) && q != NULLPROC {
      SendBox(SetCont(s, s.currpid, InKill(q)), s.procs[q].parent, q, p);
    }
    hide SendOp;
  }

  /** One step: returned, then pending == pending before, then accepted. */
  lemma MessageStep(s: KState, op: Op, p: int)
    requires CurrInRange(s) && 0 <= p < NPROC && !Creates(s, op, p)
    ensures Got(s, op, p) + Box(Step(s, op), p) == Box(s, p) + Sent(s, op, p)
  {
    if op.Finish? {
      FinishBox(s, p);
    } else if op.Send? {
      SendBox(s, op.pid, op.msg, p);
    } else if op.Kill? {
      KillBox(s, op.pid, p);
    } else if op.Receive? || op.Recvtime? {
      ReceiveBox(s, op, p);
    } else if op.WaitFor? {
      WaitBox(s, op.sem, p);
    } else if op.Signal? {
      SignalBox(s, op.sem, p);
    } else if op.Signaln? {
      SignalnBox(s, op.sem, op.count, p);
    } else if op.Semdelete? {
      SemdeleteBox(s, op.sem, p);
    } else if op.Semreset? {
      SemresetBox(s, op.sem, op.count, p);
    } else if op.Tick? {
      TickBox(s, p);
    } else if op.Getbuf? || op.Nbgetbuf? || op.Freebuf? {
      PoolBox(s, op, p);
    } else if !op.Recvclr? && !op.Create? {
      QuietBox(s, op, p);
    }
    hide FinishOp, SendOp, KillOp, ReceiveOp, RecvtimeOp, WaitOp, SignalOp, SignalnOp, SemdeleteOp, SemresetOp,
      TickOp, GetbufOp, NbgetbufOp, FreebufOp, Resched, ResumeOp, SuspendOp, SleepmsOp, DeferStop, SemcreateOp,
      MkbufpoolOp, FindPid;
  }

  // ---- whole runs ------------------------------------------------------------------

  ghost function AllSent(s: KState, ops: seq<Op>, p: int): seq<int>
    requires Legal(s, ops)
    decreases |ops|
  {
    if ops == [] then [] else Sent(s, ops[0], p) + AllSent(Step(s, ops[0]), ops[1..], p)
  }

  ghost function AllGot(s: KState, ops: seq<Op>, p: int): seq<int>
    requires Legal(s, ops) && 0 <= p < NPROC
    decreases |ops|
  {
    if ops == [] then [] else Got(s, ops[0], p) + AllGot(Step(s, ops[0]), ops[1..], p)
  }

  ghost predicate NeverCreated(s: KState, ops: seq<Op>, p: int)
    requires Legal(s, ops)
    decreases |ops|
  {
    ops == [] || (!Creates(s, ops[0], p) && NeverCreated(Step(s, ops[0]), ops[1..], p))
  }

  /** Over the life of a process, the messages it received followed by the one still in its
      box are exactly the messages accepted for it, in order: none lost, none duplicated. */
  lemma {:induction false} Delivery(s: KState, ops: seq<Op>, p: int)
    requires Legal(s, ops) && 0 <= p < NPROC && NeverCreated(s, ops, p)
    ensures AllGot(s, ops, p) + Box(Exec(s, ops), p) == Box(s, p) + AllSent(s, ops, p)
    decreases |ops|
  {
    hide Step, Sent, Got, Creates, Box, MayBlock;
    if ops != [] {
      var t := Step(s, ops[0]);
      MessageStep(s, ops[0], p);
      Delivery(t, ops[1..], p);
      var g, a := Got(s, ops[0], p), Sent(s, ops[0], p);
      var g', a' := AllGot(t, ops[1..], p), AllSent(t, ops[1..], p);
      var e := Box(Exec(s, ops), p);
      calc {
        (g + g') + e;
        g + (g' + e);
        g + (Box(t, p) + a');
        (g + Box(t, p)) + a';
        (Box(s, p) + a) + a';
        Box(s, p) + (a + a');
      }
    }
  }

  /** A process blocked for a message never has one pending, and a `receive` that runs
      again always finds one. */
  lemma BlockedReceiver(s: KState, p: int)
    requires Inv(s) && 0 <= p < NPROC
    ensures s.procs[p].state.Recv? || s.procs[p].state.RecTim? ==> Box(s, p) == []
    ensures s.conts[s.currpid].InReceive? ==> |Box(s, s.currpid)| == 1
  {
    Fits(s, p);
    Fits(s, s.currpid);
  }
}
