/**
 Deferred rescheduling: inside a DEFER_START / DEFER_STOP section the running process keeps
 the CPU, and the outermost DEFER_STOP makes up for all attempted reschedules with one.
 */
module KernelDefer {
  import opened KernelState
  import opened KernelInvariant
  import opened KernelSteps
  import opened KernelSafety
  import opened KernelRuns

  predicate WakesReceiver(s: KState, pid: int) {
    !BadPid(s, pid) && !s.procs[pid].hasmsg && (s.procs[pid].state.Recv? || s.procs[pid].state.RecTim?)
  }

  predicate ReleasesWaiter(s: KState, sem: int) { !BadSem(s, sem) && s.sems[sem].count < 0 }

  /** Which non-blocking calls reach `resched`. */
  predicate CallsResched(s: KState, op: Op)
    requires CurrInRange(s)
  {
    match op
    case Yield => true
    case Signal(sem) => ReleasesWaiter(s, sem)
    case Signaln(sem, count) => !BadSem(s, sem) && count >= 0
    case Semdelete(sem) => !BadSem(s, sem)
    case Semreset(sem, count) => !BadSem(s, sem) && count >= 0
    case Resume(pid) => !BadPid(s, pid) && s.procs[pid].state.Susp?
    case Sleepms(delay) => delay == 0
    case Send(pid, _) => WakesReceiver(s, pid)
    case Kill(pid) => !BadPid(s, pid) && pid != NULLPROC && WakesReceiver(s, s.procs[pid].parent)
    case Freebuf(i, _) => 0 <= i < |s.pools| && ReleasesWaiter(s, s.pools[i].sem)
    case Tick => s.lists[SLEEPQ] != [] && Key(DecFirst(s).keys, s.lists[SLEEPQ][0]) <= 0
    case Finish => s.conts[s.currpid].InTick? && (s.preempt - 1) % 0x1_0000_0000 == 0
    case _ => false
  }

  /** The state is the same to the scheduler, except that an attempt may have been recorded. */
  predicate StillDeferred(s: KState, t: KState, called: bool) {
    t.currpid == s.currpid && t.ndefers == s.ndefers && t.attempt == (s.attempt || called)
  }

  lemma DeferredSignal(s: KState, sem: int)
    requires CurrInRange(s) && s.ndefers > 0
    ensures StillDeferred(s, SignalOp(s, sem), ReleasesWaiter(s, sem))
  {
  }

  lemma DeferredSend(s: KState, pid: int, msg: int)
    requires CurrInRange(s) && s.ndefers > 0
    ensures StillDeferred(s, SendOp(s, pid, msg), WakesReceiver(s, pid))
  {
    hide W32, KeyPos, Remove;
  }

  lemma DeferredSync(s: KState, op: Op)
    requires CurrInRange(s) && s.ndefers > 0
    requires op.Signaln? || op.Semdelete? || op.Semreset?
    ensures StillDeferred(s, Step(s, op), CallsResched(s, op))
  {
  }

  lemma DeferredTick(s: KState)
    requires CurrInRange(s) && s.ndefers > 0
    ensures StillDeferred(s, TickOp(s), CallsResched(s, Tick))
  {
  }

  lemma DeferredKill(s: KState, p: int)
    requires CurrInRange(s) && s.ndefers > 0 && 0 <= p < NPROC && !s.procs[p].state.Curr?
    ensures StillDeferred(s, KillRest(s, p), false)
  {
    hide SetFree, Remove, W32;
  }

  lemma DeferredFinish(s: KState)
    requires Inv(s) && Enabled(s, Finish) && s.ndefers > 0
    ensures StillDeferred(s, FinishOp(s), CallsResched(s, Finish))
  {
    InvRuns(s);
    Fits(s, s.currpid);
    hide CoreX, Rest, Running, KillRest;
    var c := s.conts[s.currpid];
    if c.InKill? {
      DeferredKill(SetCont(s, s.currpid, NoCont), c.pid);
    }
  }

  lemma DeferredOther(s: KState, op: Op)
    requires Enabled(s, op) && s.ndefers > 0
    requires op.Yield? || op.WaitFor? || op.Semcreate? || op.Create? || op.Resume? || op.Sleepms?
          || op.Receive? || op.Recvclr? || op.Recvtime? || op.Mkbufpool? || op.Getbuf? || op.Nbgetbuf?
    ensures StillDeferred(s, Step(s, op), CallsResched(s, op))
  {
    hide FindPid, FindSem, KeyPos, InsertD, Private, PoolBufs;
  }

  lemma DeferredSuspend(s: KState, pid: int)
    requires Inv(s) && Enabled(s, Suspend(pid)) && s.ndefers > 0
    ensures StillDeferred(s, SuspendOp(s, pid), false)
  {
    InvRuns(s);
    hide CoreX, Rest, Running, Remove;
  }

  lemma DeferredFreebuf(s: KState, i: int, buf: int)
    requires CurrInRange(s) && s.ndefers > 0
    ensures StillDeferred(s, FreebufOp(s, i, buf), CallsResched(s, Freebuf(i, buf)))
  {
    if 0 <= i < |s.pools| {
      var b := s.pools[i];
      DeferredSignal(s.(pools := s.pools[i := Pushed(b, buf)]), b.sem);
    }
    hide SignalOp;
  }

  /** Any enabled step other than the outermost STOP leaves the running process in place
      and records exactly whether it tried to reschedule. */
  lemma DeferredStep(s: KState, op: Op)
    requires Inv(s) && Enabled(s, op) && s.ndefers > 0 && (op.Stop? ==> s.ndefers > 1)
    ensures var t := Step(s, op);
            && t.currpid == s.currpid && t.attempt == (s.attempt || CallsResched(s, op))
            && t.ndefers == s.ndefers + (if op.Start? then 1 else if op.Stop? then -1 else 0)
  {
    InvRuns(s);
    if op.Finish? {
      DeferredFinish(s);
    } else if op.Send? {
      DeferredSend(s, op.pid, op.msg);
    } else if op.Kill? {
      if !BadPid(s, op.pid) && op.pid != NULLPROC {
        DeferredSend(SetCont(s, s.currpid, InKill(op.pid)), s.procs[op.pid].parent, op.pid);
      }
    } else if op.Signal? {
      DeferredSignal(s, op.sem);
    } else if op.Freebuf? {
      DeferredFreebuf(s, op.pool, op.buf);
    } else if op.Signaln? || op.Semdelete? || op.Semreset? {
      DeferredSync(s, op);
    } else if op.Tick? {
      DeferredTick(s);
    } else if op.Suspend? {
      DeferredSuspend(s, op.pid);
    } else if !op.Start? && !op.Stop? {
      DeferredOther(s, op);
    }
    hide Inv, Enabled, FinishOp, SendOp, SignalOp, FreebufOp, SignalnOp, SemdeleteOp, SemresetOp, TickOp, SuspendOp,
      Resched, WaitOp, SemcreateOp, CreateOp, ResumeOp, SleepmsOp, ReceiveOp, RecvtimeOp, MkbufpoolOp, GetbufOp,
      NbgetbufOp, DecFirst;
  }

  /** Some step of the run reached `resched`. */
  ghost predicate AnyResched(s: KState, ops: seq<Op>)
    requires Legal(s, ops)
    decreases |ops|
  {
    ops != [] && (CallsResched(s, ops[0]) || AnyResched(Step(s, ops[0]), ops[1..]))
  }

  /** The run stays inside the section: no STOP closes the outermost START. */
  ghost predicate Inside(s: KState, ops: seq<Op>)
    requires Legal(s, ops)
    decreases |ops|
  {
    s.ndefers > 0 && (ops == [] || Inside(Step(s, ops[0]), ops[1..]))
  }

  lemma {:induction false} DeferredRun(s: KState, ops: seq<Op>)
    requires Inv(s) && Legal(s, ops) && Inside(s, ops)
    ensures var t := Exec(s, ops);
            Inv(t) && t.currpid == s.currpid && t.ndefers > 0 && t.attempt == (s.attempt || AnyResched(s, ops))
    decreases |ops|
  {
    if ops != [] {
      if ops[0].Stop? && s.ndefers == 1 {
        LastStop(s);
        assert false;
      }
      DeferredStep(s, ops[0]);
      StepInv(s, ops[0]);
      DeferredRun(Step(s, ops[0]), ops[1..]);
    }
    hide Inv, Step, Enabled, CallsResched;
  }

  lemma LastStop(s: KState)
    requires CurrInRange(s) && s.ndefers == 1
    ensures Step(s, Stop) == if s.attempt then Resched(s.(ndefers := 0)) else s.(ndefers := 0)
    ensures Step(s, Stop).ndefers == 0
  {
  }

  /** A whole section: whatever nested calls it makes, the running process keeps the CPU until
      the closing STOP, which reschedules exactly once if any call tried to, and otherwise not. */
  lemma DeferralSection(s: KState, body: seq<Op>)
    requires Inv(s) && s.ndefers == 0 && Enabled(s, Start)
    requires Legal(Step(s, Start), body) && Inside(Step(s, Start), body)
    requires var m := Exec(Step(s, Start), body); m.ndefers == 1 && Enabled(m, Stop)
    ensures var m := Exec(Step(s, Start), body);
            && m.currpid == s.currpid
            && Step(m, Stop) == if AnyResched(Step(s, Start), body) then Resched(m.(ndefers := 0)) else m.(ndefers := 0)
  {
    StepInv(s, Start);
    DeferredRun(Step(s, Start), body);
    InvRuns(Exec(Step(s, Start), body));
    LastStop(Exec(Step(s, Start), body));
    hide Inv, Enabled, Exec, AnyResched, Resched, Inside, Legal;
  }
}
