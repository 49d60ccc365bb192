/**
 Remaining time on the sleep queue, and the operations that leave every sleeper's time as it
 is.
 */
module KernelTimer {
  import opened KernelState
  import opened KernelInvariant
  import opened KernelSafety
  import opened KernelRuns
  import opened DeltaList

  predicate Asleep(s: KState, p: int) { p in s.lists[SLEEPQ] }

  /** Ticks until sleeper `p` is due. */
  function Due(s: KState, p: int): int
    requires Asleep(s, p)
  {
    Remaining(s.lists[SLEEPQ], s.keys, p)
  }

  /** Keys are not negative and no sleeper is due later than an int32 can say. */
  ghost predicate TimerOK(s: KState) {
    var l := s.lists[SLEEPQ];
    NonNeg(l, s.keys) && Pre(l, s.keys, |l|) <= MAXKEY
  }

  /** Nobody at the head is overdue. */
  ghost predicate HeadPositive(s: KState) {
    var l := s.lists[SLEEPQ];
    l != [] ==> Key(s.keys, l[0]) >= 1
  }

  // ---- steps that leave the sleepers alone -----------------------------------------

  predicate Runs(pr: Proc) { pr.state.Curr? || pr.state.Ready? }
  predicate Sleeps(pr: Proc) { pr.state.Sleep? || pr.state.RecTim? }

  /** The sleep queue is the same, and whoever was asleep has its key and state or runs. */
  ghost predicate Calm(s: KState, t: KState) {
    && t.lists[SLEEPQ] == s.lists[SLEEPQ]
    && (forall q {:trigger s.procs[q]} {:trigger t.procs[q]} :: 0 <= q < NPROC && Sleeps(s.procs[q]) ==>
          Runs(t.procs[q]) || (t.keys[q] == s.keys[q] && t.procs[q].state == s.procs[q].state))
  }

  ghost predicate KeepsRunning(s: KState, t: KState) {
    forall q {:trigger s.procs[q]} {:trigger t.procs[q]} :: 0 <= q < NPROC && Runs(s.procs[q]) ==> Runs(t.procs[q])
  }

  lemma CalmTrans(s: KState, m: KState, t: KState)
    requires Calm(s, m) && Calm(m, t) && KeepsRunning(m, t)
    ensures Calm(s, t)
  {
    forall q | 0 <= q < NPROC && Sleeps(s.procs[q])
      ensures Runs(t.procs[q]) || (t.keys[q] == s.keys[q] && t.procs[q].state == s.procs[q].state)
    {
      assert Runs(m.procs[q]) || Sleeps(m.procs[q]);
    }
  }

  lemma RunningTrans(s: KState, m: KState, t: KState)
    requires KeepsRunning(s, m) && KeepsRunning(m, t)
    ensures KeepsRunning(s, t)
  {
    forall q | 0 <= q < NPROC && Runs(s.procs[q])
      ensures Runs(t.procs[q])
    {
      assert Runs(m.procs[q]);
    }
  }

  lemma ReschedCalm(s: KState)
    requires CurrInRange(s)
    ensures Calm(s, Resched(s)) && KeepsRunning(s, Resched(s))
  {
    hide KeyPos, InsertAt;
  }

  lemma ReleaseCalm(s: KState, k: int)
    requires 0 <= k < NLISTS && k != SLEEPQ && k != READYQ
    ensures Calm(s, ReleaseFirst(s, k)) && KeepsRunning(s, ReleaseFirst(s, k))
  {
    hide KeyPos, InsertAt;
  }

  lemma SignalOneCalm(s: KState, k: int)
    requires 0 <= k < NSEM
    ensures Calm(s, SignalOne(s, k)) && KeepsRunning(s, SignalOne(s, k))
  {
    ReleaseCalm(SetCount(s, k, s.sems[k].count + 1), k);
    hide ReleaseFirst;
  }

  lemma {:induction false} SignalManyCalm(s: KState, k: int, n: nat)
    requires 0 <= k < NSEM
    ensures Calm(s, SignalMany(s, k, n)) && KeepsRunning(s, SignalMany(s, k, n))
    decreases n
  {
    if n > 0 {
      var m := SignalOne(s, k);
      var t := SignalMany(s, k, n);
      SignalOneCalm(s, k);
      SignalManyCalm(m, k, n - 1);
      CalmTrans(s, m, t);
      RunningTrans(s, m, t);
    }
    hide Calm, KeepsRunning, SignalOne;
  }

  lemma {:induction false} ReleaseAllCalm(s: KState, k: int)
    requires 0 <= k < NSEM
    ensures Calm(s, ReleaseAll(s, k)) && KeepsRunning(s, ReleaseAll(s, k))
    decreases |s.lists[k]|
  {
    if !(s.lists[k] == [] || !(0 <= s.lists[k][0] < NPROC)) {
      var m := ReleaseFirst(s, k);
      var t := ReleaseAll(s, k);
      ReleaseCalm(s, k);
      ReleaseAllCalm(m, k);
      CalmTrans(s, m, t);
      RunningTrans(s, m, t);
    }
  }

  /** A calm change followed by a reschedule is calm. */
  lemma ThenResched(s: KState, m: KState)
    requires Calm(s, m) && CurrInRange(m)
    ensures Calm(s, Resched(m))
  {
    ReschedCalm(m);
    CalmTrans(s, m, Resched(m));
  }

  /** Two states that agree on queues and keys, and in which no sleeper changed state. */
  lemma SameCalm(s: KState, t: KState)
    requires t.lists[SLEEPQ] == s.lists[SLEEPQ] && t.keys == s.keys
    requires forall q :: 0 <= q < NPROC && Sleeps(s.procs[q]) ==> t.procs[q].state == s.procs[q].state
    ensures Calm(s, t)
  {
  }

  lemma MakeReadyCalm(s: KState, p: int)
    requires 0 <= p < NPROC
    ensures Calm(s, MakeReady(s, p))
  {
    hide KeyPos, InsertAt;
  }

  lemma WaitCalm(s: KState, k: int)
    requires CurrInRange(s) && Runs(s.procs[s.currpid])
    ensures Calm(s, WaitOp(s, k))
  {
    hide Resched;
    if !BadSem(s, k) && s.sems[k].count <= 0 {
      var s1 := SetCount(s, k, s.sems[k].count - 1);
      var m := Enqueue(SetProc(s1, s1.currpid, s1.procs[s1.currpid].(state := Wait, sem := k)), s1.currpid, k);
      SameCalm(s, m);
      ThenResched(s, m);
    }
  }

  lemma SignalCalm(s: KState, k: int)
    requires CurrInRange(s)
    ensures Calm(s, SignalOp(s, k))
  {
    if !BadSem(s, k) {
      SignalOneCalm(s, k);
      ThenResched(s, SignalOne(s, k));
    }
    hide Resched, SignalOne, Calm;
    if BadSem(s, k) { SameCalm(s, s); }
  }

  lemma SyncCalm(s: KState, op: Op)
    requires CurrInRange(s) && (op.Signaln? || op.Semdelete? || op.Semreset?)
    ensures Calm(s, Step(s, op))
  {
    hide Resched, ReleaseAll, SignalMany, Calm;
    var k := op.sem;
    if BadSem(s, k) || (op.Signaln? && op.count < 0) || (op.Semreset? && op.count < 0) {
      SameCalm(s, s);
    } else if op.Signaln? {
      SignalManyCalm(s, k, op.count);
      ThenResched(s, SignalMany(s, k, op.count));
    } else {
      DrainCalm(s, k, if op.Semdelete? then Sem(false, Pos(s.sems[k].count) + 1) else Sem(s.sems[k].used, op.count));
      ReleaseAllSems(s, k);
    }
  }

  lemma DrainCalm(s: KState, k: int, e: Sem)
    requires CurrInRange(s) && 0 <= k < NSEM
    ensures Calm(s, Resched(SetSem(ReleaseAll(s, k), k, e)))
  {
    var t := ReleaseAll(s, k);
    ReleaseAllCalm(s, k);
    ThenResched(s, SetSem(t, k, e));
    hide Resched, ReleaseAll;
  }

  lemma PoolCalm(s: KState, op: Op)
    requires CurrInRange(s) && Runs(s.procs[s.currpid]) && (op.Getbuf? || op.Nbgetbuf? || op.Freebuf?)
    ensures Calm(s, Step(s, op))
  {
    hide WaitOp, SignalOp;
    if 0 <= op.pool < |s.pools| {
      var b := s.pools[op.pool];
      if op.Freebuf? {
        SignalCalm(s.(pools := s.pools[op.pool := Pushed(b, op.buf)]), b.sem);
      } else {
        WaitCalm(SetCont(s, s.currpid, InGetbuf(op.pool)), b.sem);
      }
    }
  }

  lemma SchedCalm(s: KState, op: Op)
    requires CurrInRange(s) && Runs(s.procs[s.currpid])
    requires op.Yield? || op.Resume? || op.Suspend? || op.Start? || op.Stop? || op == Sleepms(0)
    ensures Calm(s, Step(s, op))
  {
    hide Resched, MakeReady, Remove;
    match op
    case Yield => SameCalm(s, s); ThenResched(s, s);
    case Sleepms(_) => SameCalm(s, s); ThenResched(s, s);
    case Resume(p) => if !BadPid(s, p) { MakeReadyCalm(s, p); MakeReadyCurr(s, p); ThenResched(s, MakeReady(s, p)); }
    case Suspend(p) =>
      if !BadPid(s, p) && s.procs[p].state.Curr? {
        SameCalm(s, SetState(s, p, Susp));
        ThenResched(s, SetState(s, p, Susp));
      }
    case Stop => SameCalm(s, s.(ndefers := s.ndefers - 1)); ThenResched(s, s.(ndefers := s.ndefers - 1));
    case Start =>
  }

  lemma MakeReadyCurr(s: KState, p: int)
    requires 0 <= p < NPROC
    ensures MakeReady(s, p).currpid == s.currpid
  {
  }

  lemma TableCalm(s: KState, op: Op)
    requires CurrInRange(s) && (op.Semcreate? || op.Create? || op.Mkbufpool? || op.Recvclr?)
    ensures Calm(s, Step(s, op))
  {
    hide FindPid, FindSem, PoolBufs;
  }

  lemma ReceiveCalm(s: KState)
    requires CurrInRange(s) && Runs(s.procs[s.currpid])
    ensures Calm(s, ReceiveOp(s))
  {
    hide Resched;
    var m := SetState(SetCont(s, s.currpid, InReceive), s.currpid, Recv);
    SameCalm(s, m);
    ThenResched(s, m);
  }

  /** A message does not disturb the sleepers unless it wakes one from a timed receive. */
  lemma SendCalm(s: KState, pid: int, msg: int)
    requires CurrInRange(s) && !(0 <= pid < NPROC && s.procs[pid].state.RecTim? && !s.procs[pid].hasmsg)
    ensures Calm(s, SendOp(s, pid, msg))
  {
    hide Resched, MakeReady, Unsleep;
    if !BadPid(s, pid) && !s.procs[pid].hasmsg {
      var s1 := SetProc(s, pid, s.procs[pid].(msg := msg, hasmsg := true));
      SameCalm(s, s1);
      if s.procs[pid].state.Recv? {
        MakeReadyCalm(s1, pid);
        MakeReadyCurr(s1, pid);
        CalmAfterSame(s, s1, MakeReady(s1, pid));
        ThenResched(s, MakeReady(s1, pid));
      }
    }
  }

  lemma CalmAfterSame(s: KState, s1: KState, t: KState)
    requires Calm(s1, t) && s1.lists == s.lists && s1.keys == s.keys
    requires forall q :: 0 <= q < NPROC ==> s1.procs[q].state == s.procs[q].state
    ensures Calm(s, t)
  {
    forall q | 0 <= q < NPROC && Sleeps(s.procs[q])
      ensures Runs(t.procs[q]) || (t.keys[q] == s.keys[q] && t.procs[q].state == s.procs[q].state)
    {
      assert Sleeps(s1.procs[q]);
    }
  }

  lemma SetFreeCalm(s: KState, m: KState, p: int)
    requires 0 <= p < NPROC && !Sleeps(s.procs[p])
    requires m.lists[SLEEPQ] == s.lists[SLEEPQ] && m.keys == s.keys && m.procs == s.procs
    ensures Calm(s, SetFree(m, p))
  {
    SameCalm(s, SetFree(m, p));
  }

  lemma KillCalm(s: KState, p: int)
    requires CurrInRange(s) && 0 <= p < NPROC && !Sleeps(s.procs[p])
    ensures Calm(s, KillRest(s, p))
  {
    hide Resched, Remove, SetFree, Calm;
    var pr := s.procs[p];
    if pr.state.Curr? {
      SetFreeCalm(s, s, p);
      ThenResched(s, SetFree(s, p));
    } else if pr.state.Wait? && 0 <= pr.sem < NSEM {
      SetFreeCalm(s, Unlink(SetCount(s, pr.sem, s.sems[pr.sem].count + 1), p, pr.sem), p);
    } else if pr.state.Ready? {
      SetFreeCalm(s, Unlink(s, p, READYQ), p);
    } else if pr.state.Wait? {
      SameCalm(s, s);
    } else {
      SetFreeCalm(s, s, p);
    }
  }

  lemma FinishCalm(s: KState)
    requires CurrInRange(s) && Runs(s.procs[s.currpid])
    requires var v := Victim(s, Finish); 0 <= v < NPROC ==> !Sleeps(s.procs[v])
    ensures Calm(s, FinishOp(s))
  {
    hide Resched, KillRest;
    var c := s.conts[s.currpid];
    var s1 := SetCont(s, s.currpid, NoCont);
    if c.InKill? && 0 <= c.pid < NPROC {
      KillCalm(s1, c.pid);
      CalmAfterSame(s, s1, KillRest(s1, c.pid));
    } else if c.InTick? {
      SameCalm(s, s1.(preempt := QUANTUM));
      ThenResched(s, s1.(preempt := QUANTUM));
    }
  }

  // ---- what calm means for time ----------------------------------------------------

  lemma SleeperState(s: KState, x: int, p: int)
    requires CoreX(s, x) && Asleep(s, p)
    ensures 0 <= p < NPROC && Sleeps(s.procs[p])
  {
  }

  lemma CalmKeys(s: KState, x: int, t: KState, i: nat)
    requires CoreX(s, x) && Core(t) && Calm(s, t) && i < |s.lists[SLEEPQ]|
    ensures var l := s.lists[SLEEPQ]; Key(t.keys, l[i]) == Key(s.keys, l[i])
  {
    var q := s.lists[SLEEPQ][i];
    SleeperState(s, x, q);
    SleeperState(t, -1, q);
  }

  /** A calm step changes no sleeper's remaining time. */
  lemma CalmTime(s: KState, x: int, t: KState)
    requires CoreX(s, x) && Core(t) && Calm(s, t)
    ensures TimerOK(s) ==> TimerOK(t)
    ensures HeadPositive(s) ==> HeadPositive(t)
    ensures forall p :: Asleep(s, p) ==> Asleep(t, p) && Due(t, p) == Due(s, p)
  {
    var l := s.lists[SLEEPQ];
    forall i: nat | i < |l|
      ensures Key(t.keys, l[i]) == Key(s.keys, l[i])
    {
      CalmKeys(s, x, t, i);
    }
    PreSame(l, s.keys, l, t.keys, |l|);
    forall p | Asleep(s, p)
      ensures Asleep(t, p) && Due(t, p) == Due(s, p)
    {
      PreSame(l, s.keys, l, t.keys, IndexOf(l, p) + 1);
    }
    hide CoreX;
  }
}
