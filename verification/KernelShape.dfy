/**
 The shape of a step: an effect on the tables, and then at most one `resched`.  What holds of
 every call can be proved of its effect and of `resched` alone.
 */
module KernelShape {
  import opened KernelState
  import opened KernelInvariant
  import opened KernelSteps
  import opened KernelSafety
  import opened KernelFacts

  /** The state in which a call reaches `resched`, and whether it does. */
  datatype Effect = Effect(state: KState, resched: bool)

  function WaitEffect(s: KState, sem: int): Effect
    requires CurrInRange(s)
  {
    if BadSem(s, sem) then Effect(s, false)
    else
      var s1 := SetCount(s, sem, s.sems[sem].count - 1);
      if s.sems[sem].count > 0 then Effect(s1, false)
      else
        var pr := s1.procs[s1.currpid].(state := Wait, sem := sem);
        Effect(Enqueue(SetProc(s1, s1.currpid, pr), s1.currpid, sem), true)
  }

  function SignalEffect(s: KState, sem: int): Effect {
    if BadSem(s, sem) then Effect(s, false) else Effect(SignalOne(s, sem), s.sems[sem].count < 0)
  }

  function SendEffect(s: KState, pid: int, msg: int): Effect {
    if BadPid(s, pid) || s.procs[pid].hasmsg then Effect(s, false)
    else
      var s1 := SetProc(s, pid, s.procs[pid].(msg := msg, hasmsg := true));
      match s.procs[pid].state
      case Recv => Effect(MakeReady(s1, pid), true)
      case RecTim => Effect(MakeReady(Unsleep(s1, pid), pid), true)
      case _ => Effect(s1, false)
  }

  function SuspendEffect(s: KState, pid: int): Effect
    requires CurrInRange(s)
  {
    if !BadPid(s, pid) && pid != NULLPROC && s.procs[pid].state.Curr? then Effect(SetState(s, pid, Susp), true)
    else Effect(SuspendOp(s, pid), false)
  }

  function DelayEffect(s: KState, key: int, state: PrState): Effect
    requires CurrInRange(s)
  {
    Effect(SetState(InsertD(s, s.currpid, key), s.currpid, state), true)
  }

  function ReceiveEffect(s: KState): Effect
    requires CurrInRange(s)
  {
    var s1 := SetCont(s, s.currpid, InReceive);
    if s.procs[s.currpid].hasmsg then Effect(s1, false) else Effect(SetState(s1, s.currpid, Recv), true)
  }

  function RecvtimeEffect(s: KState, maxwait: int): Effect
    requires CurrInRange(s)
  {
    if maxwait < 0 then Effect(s, false)
    else
      var s1 := SetCont(s, s.currpid, InRecvtime);
      if s.procs[s.currpid].hasmsg then Effect(s1, false) else DelayEffect(s1, maxwait, RecTim)
  }

  function FreebufEffect(s: KState, pool: int, buf: int): Effect {
    if !(0 <= pool < |s.pools|) then Effect(s, false)
    else SignalEffect(s.(pools := s.pools[pool := Pushed(s.pools[pool], buf)]), s.pools[pool].sem)
  }

  function TickEffect(s: KState): Effect
    requires CurrInRange(s)
  {
    var s1 := DecFirst(SetCont(s, s.currpid, InTick));
    var l := s.lists[SLEEPQ];
    if l != [] && Key(s1.keys, l[0]) <= 0 then Effect(WakeLoop(s1), true) else Effect(s1, false)
  }

  function StopEffect(s: KState): Effect
    requires CurrInRange(s)
  {
    if s.ndefers == 1 && s.attempt then Effect(s.(ndefers := 0), true) else Effect(DeferStop(s), false)
  }

  function FinishEffect(s: KState): Effect
    requires CurrInRange(s)
  {
    var c, s1 := s.conts[s.currpid], SetCont(s, s.currpid, NoCont);
    if c.InKill? && 0 <= c.pid < NPROC && s.procs[c.pid].state.Curr? then Effect(SetFree(s1, c.pid), true)
    else if c.InTick? && (s.preempt - 1) % 0x1_0000_0000 == 0 then Effect(s1.(preempt := QUANTUM), true)
    else Effect(FinishOp(s), false)
  }

  function EffectOf(s: KState, op: Op): Effect
    requires CurrInRange(s)
  {
    match op
    case Yield => Effect(s, true)
    case WaitFor(sem) => WaitEffect(s, sem)
    case Signal(sem) => SignalEffect(s, sem)
    case Signaln(sem, n) => if BadSem(s, sem) || n < 0 then Effect(s, false) else Effect(SignalMany(s, sem, n), true)
    case Semdelete(sem) =>
      if BadSem(s, sem) then Effect(s, false)
      else Effect(SetSem(ReleaseAll(s, sem), sem, Sem(false, Pos(s.sems[sem].count) + 1)), true)
    case Semreset(sem, n) =>
      if n < 0 || BadSem(s, sem) then Effect(s, false) else Effect(SetCount(ReleaseAll(s, sem), sem, n), true)
    case Resume(pid) =>
      if BadPid(s, pid) || !s.procs[pid].state.Susp? then Effect(s, false) else Effect(MakeReady(s, pid), true)
    case Suspend(pid) => SuspendEffect(s, pid)
    case Sleepms(delay) => if delay == 0 then Effect(s, true) else DelayEffect(s, W32(delay), Sleep)
    case Send(pid, msg) => SendEffect(s, pid, msg)
    case Receive => ReceiveEffect(s)
    case Recvtime(maxwait) => RecvtimeEffect(s, maxwait)
    case Kill(pid) =>
      if BadPid(s, pid) || pid == NULLPROC then Effect(s, false)
      else SendEffect(SetCont(s, s.currpid, InKill(pid)), s.procs[pid].parent, pid)
    case Stop => StopEffect(s)
    case Getbuf(i) =>
      if !(0 <= i < |s.pools|) then Effect(s, false)
      else WaitEffect(SetCont(s, s.currpid, InGetbuf(i)), s.pools[i].sem)
    case Freebuf(i, buf) => FreebufEffect(s, i, buf)
    case Tick => TickEffect(s)
    case Finish => FinishEffect(s)
    case _ => Effect(Step(s, op), false)
  }

  lemma FinishShape(s: KState)
    requires CurrInRange(s)
    ensures var e := FinishEffect(s);
            FinishOp(s) == (if e.resched then (if CurrInRange(e.state) then Resched(e.state) else s) else e.state)
    ensures FinishEffect(s).resched ==> FinishEffect(s).state.currpid == s.currpid
  {
    hide Resched, TakeBuf, ClearMsg, Unsleep, Unlink;
  }

  /** Calls whose effect is a function of its own here, or composed of such. */
  lemma CallShape(s: KState, op: Op)
    requires CurrInRange(s)
    requires op.Send? || op.Kill? || op.Getbuf? || op.Freebuf? || op.Sleepms? || op.Recvtime? || op.Tick? || op.Stop?
    ensures var e := EffectOf(s, op);
            && (e.resched ==> e.state.currpid == s.currpid)
            && Step(s, op) == (if e.resched then Resched(e.state) else e.state)
  {
    hide Resched, WakeLoop, W32, DeltaPos, KeyPos, Remove;
  }

  lemma SyncShape(s: KState, op: Op)
    requires CurrInRange(s)
    requires op.WaitFor? || op.Signal? || op.Signaln? || op.Semdelete? || op.Semreset? || op.Resume? || op.Suspend?
          || op.Receive?
    ensures var e := EffectOf(s, op);
            && (e.resched ==> e.state.currpid == s.currpid)
            && Step(s, op) == (if e.resched then Resched(e.state) else e.state)
  {
    hide Resched, SignalMany, ReleaseAll, KeyPos, Remove;
  }

  lemma TableShape(s: KState, op: Op)
    requires CurrInRange(s)
    requires op.Yield? || op.Semcreate? || op.Create? || op.Recvclr? || op.Start? || op.Mkbufpool? || op.Nbgetbuf?
    ensures var e := EffectOf(s, op);
            e.state.currpid == s.currpid && Step(s, op) == (if e.resched then Resched(e.state) else e.state)
  {
    hide Resched, FindPid, FindSem, KeyPos;
  }

  /** Every step is its effect, followed by `resched` where the call makes it. */
  lemma StepShape(s: KState, op: Op)
    requires CurrInRange(s)
    ensures var e := EffectOf(s, op);
            && (e.resched ==> e.state.currpid == s.currpid)
            && Step(s, op) == (if e.resched then Resched(e.state) else e.state)
  {
    if op.Finish? {
      FinishShape(s);
      hide Resched, FinishOp, FinishEffect;
    } else {
      hide EffectOf, Step, Resched;
      if op.Send? || op.Kill? || op.Getbuf? || op.Freebuf? || op.Sleepms? || op.Recvtime? || op.Tick? || op.Stop? {
        CallShape(s, op);
      } else if op.Yield? || op.Semcreate? || op.Create? || op.Recvclr? || op.Start? || op.Mkbufpool? || op.Nbgetbuf? {
        TableShape(s, op);
      } else {
        SyncShape(s, op);
      }
    }
  }

  // ---- the state in which `resched` is reached -------------------------------------

  /** The caller still holds the CPU, is on no queue it could be dispatched from, and the tables agree. */
  ghost predicate MayResched(s: KState, m: KState) {
    && Core(m) && m.currpid == s.currpid && m.ndefers >= 0
    && (m.ndefers > 0 ==> m.procs[m.currpid].state.Curr?) && !m.procs[m.currpid].state.Ready?
  }

  lemma WaitReaches(s: KState, s1: KState, k: int)
    requires Inv(s) && CanWait(s1, k) && s1.currpid == s.currpid
    ensures WaitEffect(s1, k).resched ==> MayResched(s, WaitEffect(s1, k).state)
  {
    EnterWait(s1, k);
    hide Inv, CoreX;
  }

  lemma SignalReaches(s: KState, s1: KState, k: int)
    requires Inv(s) && CanSignal(s1) && s1.currpid == s.currpid && s1.ndefers == s.ndefers
    ensures SignalEffect(s1, k).resched ==> MayResched(s, SignalEffect(s1, k).state)
  {
    InvRuns(s);
    EnterSignal(s1, k);
    hide Inv, CoreX, SemOK, SignalOne;
  }

  lemma SyncReaches(s: KState, op: Op)
    requires Inv(s) && Enabled(s, op) && (op.Signaln? || op.Semdelete? || op.Semreset?)
    ensures EffectOf(s, op).resched ==> MayResched(s, EffectOf(s, op).state)
  {
    InvRuns(s);
    EnterSem(s, op.sem);
    var e := EffectOf(s, op);
    hide Inv, CoreX, Rest, SignalMany, ReleaseAll, Private;
    if e.resched {
      if op.Signaln? {
        SignalManyRest(s, op.sem, op.count);
      } else {
        DrainReaches(s, op.sem);
        CoreIgnores(ReleaseAll(s, op.sem), e.state, -1);
      }
    }
  }

  lemma DrainReaches(s: KState, k: int)
    requires Inv(s) && !BadSem(s, k) && !Private(s, k)
    ensures MayResched(s, ReleaseAll(s, k))
  {
    InvRuns(s);
    ReleaseAllMid(s, k);
  }

  lemma SendReaches(s: KState, pid: int, msg: int)
    requires Inv(s)
    ensures SendEffect(s, pid, msg).resched ==> MayResched(s, SendEffect(s, pid, msg).state)
  {
    InvRuns(s);
    EnterSend(s, pid, msg);
    if SendEffect(s, pid, msg).resched {
      var s1 := SetProc(s, pid, s.procs[pid].(msg := msg, hasmsg := true));
      UnsleepKeeps(s1, pid);
      MakeReadyKeeps(s1, pid);
      MakeReadyKeeps(Unsleep(s1, pid), pid);
    }
    hide Inv, CoreX, MakeReady, Unsleep;
  }

  lemma KillReaches(s: KState, pid: int)
    requires Inv(s) && Enabled(s, Kill(pid))
    ensures EffectOf(s, Kill(pid)).resched ==> MayResched(s, EffectOf(s, Kill(pid)).state)
  {
    EnterKill(s, pid);
    hide Inv, SendEffect;
    if !BadPid(s, pid) && pid != NULLPROC {
      SendReaches(SetCont(s, s.currpid, InKill(pid)), s.procs[pid].parent, pid);
    }
  }

  lemma DelayReaches(s: KState, c: Cont, key: int, state: PrState)
    requires Inv(s) && s.currpid != NULLPROC && s.ndefers == 0 && (state.Sleep? || state.RecTim?)
    ensures CurrInRange(s) && MayResched(s, DelayEffect(SetCont(s, s.currpid, c), key, state).state)
  {
    EnterDelay(s, c, key, state);
    InsertDKeeps(SetCont(s, s.currpid, c), s.currpid, key);
    hide Inv, CoreX, InsertD;
  }

  lemma TimedReaches(s: KState, op: Op)
    requires Inv(s) && Enabled(s, op) && (op.Sleepms? || op.Recvtime?)
    ensures EffectOf(s, op).resched ==> MayResched(s, EffectOf(s, op).state)
  {
    InvRuns(s);
    hide CoreX, Rest, DelayEffect, W32, Private;
    if op.Sleepms? {
      if op.delay != 0 {
        assert SetCont(s, s.currpid, s.conts[s.currpid]) == s;
        DelayReaches(s, s.conts[s.currpid], W32(op.delay), Sleep);
      }
    } else if op.maxwait >= 0 && !s.procs[s.currpid].hasmsg {
      DelayReaches(s, InRecvtime, op.maxwait, RecTim);
    }
  }

  lemma ProcessReaches(s: KState, op: Op)
    requires Inv(s) && Enabled(s, op) && (op.Yield? || op.Resume? || op.Suspend? || op.Receive?)
    ensures EffectOf(s, op).resched ==> MayResched(s, EffectOf(s, op).state)
  {
    InvRuns(s);
    EnterYield(s);
    hide Inv, CoreX, MakeReady, Private;
    match op
    case Yield =>
    case Resume(p) =>
      EnterResume(s, p);
      if EffectOf(s, op).resched { MakeReadyKeeps(s, p); }
    case Suspend(p) => EnterSuspend(s, p);
    case Receive => EnterReceive(s);
  }

  lemma TickReaches(s: KState)
    requires Inv(s) && Enabled(s, Tick)
    ensures TickEffect(s).resched ==> MayResched(s, TickEffect(s).state)
  {
    InvRuns(s);
    EnterTick(s);
    DecFirstKeeps(SetCont(s, s.currpid, InTick));
    hide Inv, CoreX, DecFirst, WakeLoop;
  }

  lemma StopReaches(s: KState)
    requires Inv(s)
    ensures CurrInRange(s) && (StopEffect(s).resched ==> MayResched(s, StopEffect(s).state))
  {
    EnterYield(s);
    CoreIgnores(s, s.(ndefers := 0), -1);
    hide Inv, CoreX;
  }

  lemma FinishReaches(s: KState)
    requires Inv(s) && Enabled(s, Finish)
    ensures FinishEffect(s).resched ==> MayResched(s, FinishEffect(s).state)
  {
    InvRuns(s);
    EnterYield(s);
    Fits(s, s.currpid);
    var c := s.conts[s.currpid];
    hide CoreX, Rest, SetFree, FinishOp;
    if FinishEffect(s).resched {
      if c.InKill? {
        SetContInv(s, NoCont);
        EnterKillRest(SetCont(s, s.currpid, NoCont), c.pid);
        FreedKeeps(SetCont(s, s.currpid, NoCont), c.pid);
      } else {
        CoreIgnores(s, FinishEffect(s).state, -1);
      }
    }
  }

  lemma FreedKeeps(s: KState, p: int)
    requires 0 <= p < NPROC
    ensures SetFree(s, p).currpid == s.currpid && SetFree(s, p).ndefers == s.ndefers
    ensures SetFree(s, p).procs == s.procs[p := s.procs[p].(state := Free)]
    ensures SetFree(s, p).conts == s.conts[p := NoCont]
  {
  }

  lemma GetbufReaches(s: KState, i: int)
    requires Inv(s) && Enabled(s, Getbuf(i))
    ensures EffectOf(s, Getbuf(i)).resched ==> MayResched(s, EffectOf(s, Getbuf(i)).state)
  {
    EnterYield(s);
    if 0 <= i < |s.pools| {
      GetbufMayWait(s, i);
      hide Inv, CoreX, WaitEffect, Private;
      WaitReaches(s, SetCont(s, s.currpid, InGetbuf(i)), s.pools[i].sem);
    }
  }

  lemma FreebufReaches(s: KState, i: int, buf: int)
    requires Inv(s)
    ensures FreebufEffect(s, i, buf).resched ==> MayResched(s, FreebufEffect(s, i, buf).state)
  {
    hide CoreX, SignalEffect;
    if 0 <= i < |s.pools| {
      var s1 := s.(pools := s.pools[i := Pushed(s.pools[i], buf)]);
      FreebufMaySignal(s, s1.pools);
      hide Inv;
      SignalReaches(s, s1, s.pools[i].sem);
    }
  }

  lemma SemReaches(s: KState, op: Op)
    requires Inv(s) && Enabled(s, op) && (op.WaitFor? || op.Signal?)
    ensures EffectOf(s, op).resched ==> MayResched(s, EffectOf(s, op).state)
  {
    InvRuns(s);
    EnterYield(s);
    assert SemOK(s);
    hide Inv, CoreX, SemOK, WaitEffect, SignalEffect, Private;
    if op.WaitFor? { WaitReaches(s, s, op.sem); } else { SignalReaches(s, s, op.sem); }
  }

  /** Whichever call reaches `resched`, the caller may be taken off the CPU there. */
  lemma StepReaches(s: KState, op: Op)
    requires Inv(s) && Enabled(s, op)
    ensures EffectOf(s, op).resched ==> MayResched(s, EffectOf(s, op).state)
  {
    InvRuns(s);
    if op.WaitFor? || op.Signal? {
      SemReaches(s, op);
    } else if op.Signaln? || op.Semdelete? || op.Semreset? {
      SyncReaches(s, op);
    } else if op.Sleepms? || op.Recvtime? {
      TimedReaches(s, op);
    } else if op.Yield? || op.Resume? || op.Suspend? || op.Receive? {
      ProcessReaches(s, op);
    } else if op.Send? {
      SendReaches(s, op.pid, op.msg);
    } else if op.Kill? {
      KillReaches(s, op.pid);
    } else if op.Getbuf? {
      GetbufReaches(s, op.pool);
    } else if op.Freebuf? {
      FreebufReaches(s, op.pool, op.buf);
    } else if op.Tick? {
      TickReaches(s);
    } else if op.Stop? {
      StopReaches(s);
    } else if op.Finish? {
      FinishReaches(s);
    }
    hide Inv, Enabled, MayResched, WaitEffect, SignalEffect, SendEffect, FreebufEffect, TickEffect, StopEffect,
      FinishEffect, SuspendEffect, DelayEffect, ReceiveEffect, RecvtimeEffect, Step;
  }
}
