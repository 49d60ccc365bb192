/**
 First come, first served among equals on the ready list: what every kernel step does to the
 order of ready processes, and who can overtake whom over whole runs.
 */
module KernelFifo {
  import opened KernelState
  import opened KernelInvariant
  import opened KernelSteps
  import opened KernelSafety
  import opened KernelRuns
  import opened KernelFacts
  import opened ReadyOrder

  function ViewOf(s: KState): View {
    View(s.lists[READYQ], seq(NPROC, i requires 0 <= i < NPROC => s.procs[i].prio), s.currpid)
  }

  /** The line of a state in which the core invariant holds. */
  lemma LineInOrder(s: KState, x: int)
    requires CoreX(s, x)
    ensures var v := ViewOf(s);
            && NoDup(v.ready) && Descending(v.ready, v.prio)
            && forall q :: q in v.ready ==>
                  0 <= q < NPROC && q != x && Key(v.prio, q) == Key(s.keys, q) && s.procs[q].state.Ready?
  {
    var v := ViewOf(s);
    forall q | q in v.ready
      ensures 0 <= q < NPROC && q != x && Key(v.prio, q) == Key(s.keys, q) && s.procs[q].state.Ready?
    {
      assert q in s.lists[READYQ];
    }
    assert NoDup(s.lists[READYQ]);
    forall i, j | 0 <= i < j < |v.ready|
      ensures Key(v.prio, v.ready[i]) >= Key(v.prio, v.ready[j])
    {
      assert v.ready[i] in v.ready && v.ready[j] in v.ready;
    }
  }

  /** `ready` is joining the line. */
  lemma MakeReadyView(s: KState, p: int)
    requires CoreX(s, p) && 0 <= p < NPROC
    ensures p !in s.lists[READYQ] && ViewOf(MakeReady(s, p)) == Enter(ViewOf(s), p)
  {
    LineInOrder(s, p);
    EnterView(s, p);
  }

  lemma EnterView(s: KState, p: int)
    requires 0 <= p < NPROC && forall q :: q in s.lists[READYQ] ==> Key(ViewOf(s).prio, q) == Key(s.keys, q)
    ensures ViewOf(MakeReady(s, p)) == Enter(ViewOf(s), p)
  {
    var l, v := s.lists[READYQ], ViewOf(s);
    var i := KeyPos(l, s.keys, s.procs[p].prio);
    forall j | 0 <= j < |l|
      ensures Key(v.prio, l[j]) == Key(s.keys, l[j])
    {
      assert l[j] in l;
    }
    KeyPosUnique(l, v.prio, s.procs[p].prio, i);
    hide KeyPos, InsertAt;
    assert ViewOf(MakeReady(s, p)).prio == v.prio;
  }

  /** A process in transit is made ready: it joins the line. */
  lemma ReadyJoins(s: KState, p: int)
    requires CoreX(s, p) && 0 <= p < NPROC
    ensures Joins(ViewOf(s), ViewOf(MakeReady(s, p)))
  {
    LineInOrder(s, p);
    MakeReadyView(s, p);
    EnterJoins(ViewOf(s), p);
  }

  lemma ReleaseJoins(s: KState, k: int)
    requires Core(s) && 0 <= k < NLISTS && k != READYQ && s.lists[k] != []
    ensures Joins(ViewOf(s), ViewOf(ReleaseFirst(s, k))) && Core(ReleaseFirst(s, k))
  {
    ReleaseFirstCore(s, k);
    ReleaseFirstFrame(s, k);
    var p := s.lists[k][0];
    assert NoDup(s.lists[k]);
    UnlinkCore(s, p);
    RemoveFirst(s.lists[k]);
    var m := SetList(s, k, s.lists[k][1..]);
    assert Unlink(s, p, k) == m;
    hide CoreX, Remove, MakeReady;
    assert ViewOf(m) == ViewOf(s);
    ReadyJoins(m, p);
  }

  lemma {:induction false} ReleaseAllJoins(s: KState, k: int)
    requires Core(s) && 0 <= k < NSEM
    ensures Joins(ViewOf(s), ViewOf(ReleaseAll(s, k))) && Core(ReleaseAll(s, k))
    decreases |s.lists[k]|
  {
    if s.lists[k] == [] {
      JoinsRefl(ViewOf(s));
    } else {
      ReleaseFirstFrame(s, k);
      hide CoreX, Joins, ReleaseFirst;
      ReleaseJoins(s, k);
      ReleaseAllJoins(ReleaseFirst(s, k), k);
      JoinsTrans(ViewOf(s), ViewOf(ReleaseFirst(s, k)), ViewOf(ReleaseAll(s, k)));
    }
  }

  lemma SignalOneJoins(s: KState, sem: int)
    requires Core(s) && SemOK(s) && 0 <= sem < NSEM && s.sems[sem].used
    ensures Joins(ViewOf(s), ViewOf(SignalOne(s, sem))) && Core(SignalOne(s, sem))
  {
    var s1 := SetCount(s, sem, s.sems[sem].count + 1);
    CoreIgnores(s, s1, -1);
    assert ViewOf(s1) == ViewOf(s);
    hide CoreX, Joins, ReleaseFirst;
    if s.sems[sem].count < 0 {
      ReleaseJoins(s1, sem);
    } else {
      JoinsRefl(ViewOf(s));
    }
  }

  lemma {:induction false} SignalManyJoins(s: KState, sem: int, n: nat)
    requires Core(s) && Rest(s) && 0 <= sem < NSEM && s.sems[sem].used && !Private(s, sem)
    ensures Joins(ViewOf(s), ViewOf(SignalMany(s, sem, n)))
    decreases n
  {
    hide CoreX, Joins, SignalOne;
    if n == 0 {
      JoinsRefl(ViewOf(s));
    } else {
      SignalOneJoins(s, sem);
      SignalOneRest(s, sem);
      SignalManyJoins(SignalOne(s, sem), sem, n - 1);
      JoinsTrans(ViewOf(s), ViewOf(SignalOne(s, sem)), ViewOf(SignalMany(s, sem, n)));
    }
  }

  lemma {:induction false} WakeLoopJoins(s: KState)
    requires Core(s)
    ensures Joins(ViewOf(s), ViewOf(WakeLoop(s)))
    decreases |s.lists[SLEEPQ]|
  {
    var l := s.lists[SLEEPQ];
    if l == [] || !(0 <= l[0] < NPROC) || s.keys[l[0]] > 0 {
      JoinsRefl(ViewOf(s));
    } else {
      ReleaseFirstFrame(s, SLEEPQ);
      hide CoreX, Joins, ReleaseFirst;
      ReleaseJoins(s, SLEEPQ);
      WakeLoopJoins(ReleaseFirst(s, SLEEPQ));
      JoinsTrans(ViewOf(s), ViewOf(ReleaseFirst(s, SLEEPQ)), ViewOf(WakeLoop(s)));
    }
  }

  // ---- rescheduling ----------------------------------------------------------------

  lemma DispatchView(s: KState)
    requires s.lists[READYQ] != [] && 0 <= s.lists[READYQ][0] < NPROC
    ensures ViewOf(Dispatch(s)) == Pop(ViewOf(s))
  {
  }

  /** After joining, a reschedule serves the line fairly. */
  lemma ReschedFair(v: View, s: KState)
    requires Core(s) && s.ndefers >= 0 && (s.ndefers > 0 ==> s.procs[s.currpid].state.Curr?)
    requires NoDup(v.ready) && Joins(v, ViewOf(s))
    ensures Fair(v, ViewOf(Resched(s)))
  {
    var w := ViewOf(s);
    LineInOrder(s, -1);
    if s.ndefers > 0 || (s.procs[s.currpid].state.Curr? && s.procs[s.currpid].prio > FirstReadyKey(s)) {
      assert ViewOf(Resched(s)) == w;
      hide CoreX, Resched;
      JoinsFair(v, w);
    } else if s.procs[s.currpid].state.Curr? {
      Lift(s, s.currpid);
      MakeReadyView(s, s.currpid);
      EnterJoins(w, s.currpid);
      var m := MakeReady(s, s.currpid);
      assert m.lists[READYQ] != [] && m.lists[READYQ][0] in m.lists[READYQ];
      DispatchView(m);
      hide CoreX, MakeReady, Dispatch, Joins, Fair;
      JoinsTrans(v, w, ViewOf(m));
      PopFair(v, ViewOf(m));
    } else {
      FirstIsReady(s);
      DispatchView(s);
      hide CoreX, Dispatch, Joins, Fair;
      PopFair(v, w);
    }
  }

  /** A call that leaves the line alone and reschedules. */
  lemma BlockFair(s: KState, m: KState)
    requires Inv(s) && Core(m) && ViewOf(m) == ViewOf(s)
    requires m.ndefers >= 0 && (m.ndefers > 0 ==> m.procs[m.currpid].state.Curr?)
    ensures Fair(ViewOf(s), ViewOf(Resched(m)))
  {
    LineInOrder(s, -1);
    JoinsRefl(ViewOf(s));
    hide CoreX, Rest, Resched, Joins, Fair, ViewOf;
    ReschedFair(ViewOf(s), m);
  }

  /** Calls that leave the line and the CPU alone. */
  lemma SameLine(s: KState, t: KState)
    requires t.lists[READYQ] == s.lists[READYQ] && t.currpid == s.currpid
    ensures Fair(ViewOf(s), ViewOf(t))
  {
    SameFair(ViewOf(s), ViewOf(t));
  }

  // ---- one lemma per kind of call --------------------------------------------------

  lemma WaitFair(s: KState, s1: KState, k: int)
    requires Inv(s) && Core(s1) && ViewOf(s1) == ViewOf(s) && s1.procs == s.procs && s1.ndefers == s.ndefers
    requires !BadSem(s1, k) && s1.sems[k].count <= 0 ==> s.currpid != NULLPROC && s.ndefers == 0
    ensures Fair(ViewOf(s), ViewOf(WaitOp(s1, k)))
  {
    InvRuns(s);
    if !BadSem(s1, k) && s1.sems[k].count <= 0 {
      WaitMidCore(s1, k);
      var s2 := SetCount(s1, k, s1.sems[k].count - 1);
      var m := Enqueue(SetProc(s2, s2.currpid, s2.procs[s2.currpid].(state := Wait, sem := k)), s2.currpid, k);
      assert ViewOf(m).prio == ViewOf(s1).prio;
      hide Inv, CoreX, Resched, Fair;
      BlockFair(s, m);
    } else {
      hide Inv, CoreX, Resched, Fair;
      SameLine(s, WaitOp(s1, k));
    }
  }

  lemma SignalFair(s: KState, s1: KState, k: int)
    requires Inv(s) && Core(s1) && SemOK(s1) && ViewOf(s1) == ViewOf(s) && s1.procs == s.procs
    requires s1.ndefers == s.ndefers
    ensures Fair(ViewOf(s), ViewOf(SignalOp(s1, k)))
  {
    InvRuns(s);
    LineInOrder(s, -1);
    if BadSem(s1, k) {
      SameLine(s, s1);
    } else {
      SignalOneFrame(s1, k);
      SignalOneJoins(s1, k);
      var m := SignalOne(s1, k);
      assert m.ndefers == s1.ndefers && m.procs[m.currpid].state.Curr?;
      hide Inv, CoreX, Resched, SignalOne, Joins, Fair;
      if s1.sems[k].count < 0 { ReschedFair(ViewOf(s), m); } else { JoinsFair(ViewOf(s), ViewOf(m)); }
    }
  }

  lemma SignalnFair(s: KState, k: int, n: int)
    requires Inv(s) && Enabled(s, Signaln(k, n))
    ensures Fair(ViewOf(s), ViewOf(SignalnOp(s, k, n)))
  {
    InvRuns(s);
    LineInOrder(s, -1);
    if BadSem(s, k) || n < 0 {
      SameLine(s, s);
    } else {
      SignalManyRest(s, k, n);
      SignalManyJoins(s, k, n);
      hide CoreX, Rest, Resched, SignalMany, Joins, Fair;
      ReschedFair(ViewOf(s), SignalMany(s, k, n));
    }
  }

  lemma DrainFair(s: KState, k: int, e: Sem)
    requires Inv(s) && 0 <= k < NSEM && !Private(s, k)
    ensures Fair(ViewOf(s), ViewOf(Resched(SetSem(ReleaseAll(s, k), k, e))))
  {
    InvRuns(s);
    LineInOrder(s, -1);
    ReleaseAllMid(s, k);
    ReleaseAllJoins(s, k);
    var t := ReleaseAll(s, k);
    var m := SetSem(t, k, e);
    CoreIgnores(t, m, -1);
    assert ViewOf(m) == ViewOf(t);
    hide CoreX, Rest, Resched, ReleaseAll, Joins, Fair;
    ReschedFair(ViewOf(s), m);
  }

  lemma ReadyFair(s: KState, m: KState, p: int)
    requires Inv(s) && CoreX(m, p) && 0 <= p < NPROC && p != s.currpid && ViewOf(m) == ViewOf(s)
    requires m.ndefers == s.ndefers && m.procs[m.currpid].state.Curr?
    ensures Fair(ViewOf(s), ViewOf(Resched(MakeReady(m, p))))
  {
    LineInOrder(s, -1);
    ReadyJoins(m, p);
    MakeReadyCore(m, p);
    MakeReadyKeeps(m, p);
    assert MakeReady(m, p).procs[m.currpid].state.Curr?;
    hide CoreX, Rest, Resched, MakeReady, Joins, Fair;
    ReschedFair(ViewOf(s), MakeReady(m, p));
  }

  lemma ResumeFair(s: KState, p: int)
    requires Inv(s)
    ensures Fair(ViewOf(s), ViewOf(ResumeOp(s, p)))
  {
    InvRuns(s);
    if !BadPid(s, p) && s.procs[p].state.Susp? {
      Lift(s, p);
      hide Inv, CoreX, Resched, MakeReady, Fair;
      ReadyFair(s, s, p);
    } else {
      SameLine(s, s);
    }
  }

  lemma SuspendFair(s: KState, p: int)
    requires Inv(s) && Enabled(s, Suspend(p))
    ensures Fair(ViewOf(s), ViewOf(SuspendOp(s, p)))
  {
    EnterSuspend(s, p);
    LineInOrder(s, -1);
    hide CoreX, Rest, Resched, Remove, Fair;
    if BadPid(s, p) || p == NULLPROC {
      SameLine(s, s);
    } else if s.procs[p].state.Ready? {
      RemoveFair(ViewOf(s), ViewOf(SuspendOp(s, p)), p);
    } else if s.procs[p].state.Curr? {
      assert ViewOf(SetState(s, p, Susp)).prio == ViewOf(s).prio;
      BlockFair(s, SetState(s, p, Susp));
    } else {
      SameLine(s, s);
    }
  }

  lemma DelayFair(s: KState, c: Cont, key: int, st: PrState)
    requires Inv(s) && s.currpid != NULLPROC && s.ndefers == 0 && (st.Sleep? || st.RecTim?)
    ensures Fair(ViewOf(s), ViewOf(Resched(SetState(InsertD(SetCont(s, s.currpid, c), s.currpid, key), s.currpid, st))))
  {
    EnterDelay(s, c, key, st);
    var s1 := SetCont(s, s.currpid, c);
    var m := SetState(InsertD(s1, s.currpid, key), s.currpid, st);
    InsertDKeeps(s1, s.currpid, key);
    assert InsertD(s1, s.currpid, key).lists[READYQ] == s.lists[READYQ];
    hide Inv, CoreX, Resched, InsertD, Fair;
    assert ViewOf(m).prio == ViewOf(s).prio;
    BlockFair(s, m);
  }

  lemma ReceiveFair(s: KState)
    requires Inv(s) && Enabled(s, Receive)
    ensures Fair(ViewOf(s), ViewOf(ReceiveOp(s)))
  {
    EnterReceive(s);
    hide Inv, CoreX, Resched, Fair;
    var s1 := SetCont(s, s.currpid, InReceive);
    if s.procs[s.currpid].hasmsg {
      SameLine(s, s1);
    } else {
      assert ViewOf(SetState(s1, s.currpid, Recv)).prio == ViewOf(s).prio;
      BlockFair(s, SetState(s1, s.currpid, Recv));
    }
  }

  lemma SendFair(s: KState, p: int, msg: int)
    requires Inv(s)
    ensures Fair(ViewOf(s), ViewOf(SendOp(s, p, msg)))
  {
    hide Inv, Resched, MakeReady, Unsleep, Fair;
    InvRuns(s);
    if !BadPid(s, p) && !s.procs[p].hasmsg && (s.procs[p].state.Recv? || s.procs[p].state.RecTim?) {
      DeliverFair(s, p, msg);
    } else {
      SameLine(s, SendOp(s, p, msg));
    }
  }

  lemma DeliverFair(s: KState, p: int, msg: int)
    requires Inv(s) && 0 <= p < NPROC && (s.procs[p].state.Recv? || s.procs[p].state.RecTim?)
    ensures var s1 := SetProc(s, p, s.procs[p].(msg := msg, hasmsg := true));
            Fair(ViewOf(s), ViewOf(Resched(MakeReady(if s.procs[p].state.Recv? then s1 else Unsleep(s1, p), p))))
  {
    var s1 := SetProc(s, p, s.procs[p].(msg := msg, hasmsg := true));
    InvRuns(s);
    DeliverMidCore(s, p, msg);
    UnsleepKeeps(s1, p);
    assert Unsleep(s1, p).lists[READYQ] == s1.lists[READYQ];
    hide Inv, CoreX, Resched, MakeReady, Unsleep, Fair;
    assert ViewOf(s1).prio == ViewOf(s).prio;
    ReadyFair(s, if s.procs[p].state.Recv? then s1 else Unsleep(s1, p), p);
  }

  lemma TickFair(s: KState)
    requires Inv(s) && Enabled(s, Tick)
    ensures Fair(ViewOf(s), ViewOf(TickOp(s)))
  {
    EnterTick(s);
    LineInOrder(s, -1);
    var s1 := DecFirst(SetCont(s, s.currpid, InTick));
    DecFirstKeeps(SetCont(s, s.currpid, InTick));
    assert ViewOf(s1) == ViewOf(s);
    hide CoreX, Rest, Resched, WakeLoop, DecFirst, Joins, Fair;
    WakeLoopJoins(s1);
    if s.lists[SLEEPQ] != [] && Key(s1.keys, s.lists[SLEEPQ][0]) <= 0 {
      ReschedFair(ViewOf(s), WakeLoop(s1));
    } else {
      SameLine(s, s1);
    }
  }

  lemma KillFair(s: KState, s1: KState, p: int)
    requires Inv(s) && Core(s1) && ViewOf(s1) == ViewOf(s) && s1.procs == s.procs && s1.ndefers == s.ndefers
    requires 0 < p < NPROC
    requires p == s.currpid ==> s.ndefers == 0
    ensures Fair(ViewOf(s), ViewOf(KillRest(s1, p)))
  {
    hide Inv, Resched, Remove, W32, Fair, SetFree, CoreX, KillRest;
    InvRuns(s);
    var pr := s1.procs[p];
    if pr.state.Curr? {
      KillCurrFair(s, s1, p);
    } else {
      KillOtherFair(s, s1, p);
    }
  }

  lemma KillCurrFair(s: KState, s1: KState, p: int)
    requires Inv(s) && Core(s1) && ViewOf(s1) == ViewOf(s) && s1.ndefers == 0 && 0 < p < NPROC
    requires s1.procs[p].state.Curr?
    ensures Fair(ViewOf(s), ViewOf(KillRest(s1, p)))
  {
    hide Inv, Resched, Fair, SetFree;
    Lift(s1, p);
    SetFreeCore(s1, p);
    SetFreeView(s1, p);
    hide CoreX;
    BlockFair(s, SetFree(s1, p));
  }

  lemma KillOtherFair(s: KState, s1: KState, p: int)
    requires Inv(s) && Core(s1) && ViewOf(s1) == ViewOf(s) && 0 < p < NPROC && !s1.procs[p].state.Curr?
    ensures Fair(ViewOf(s), ViewOf(KillRest(s1, p)))
  {
    hide Inv, Fair, KillRest;
    if s1.procs[p].state.Ready? {
      KillReadyFair(s, s1, p);
    } else {
      KillKeepsLine(s1, p);
      SameLine(s, KillRest(s1, p));
    }
  }

  lemma KillReadyFair(s: KState, s1: KState, p: int)
    requires Inv(s) && Core(s1) && ViewOf(s1) == ViewOf(s) && 0 < p < NPROC && s1.procs[p].state.Ready?
    ensures Fair(ViewOf(s), ViewOf(KillRest(s1, p)))
  {
    LineInOrder(s, -1);
    hide Inv, Resched, Remove, Fair, SetFree, CoreX, Unsleep;
    var m := Unlink(s1, p, READYQ);
    assert KillRest(s1, p) == SetFree(m, p);
    hide KillRest;
    SetFreeView(m, p);
    RemoveFair(ViewOf(s), ViewOf(SetFree(m, p)), p);
  }

  lemma KillKeepsLine(s: KState, p: int)
    requires Core(s) && 0 < p < NPROC && !s.procs[p].state.Curr? && !s.procs[p].state.Ready?
    ensures KillRest(s, p).lists[READYQ] == s.lists[READYQ] && KillRest(s, p).currpid == s.currpid
  {
    AtHome(s, p);
    hide Resched, Remove, W32, SetFree, CoreX;
  }

  lemma SetFreeView(s: KState, p: int)
    requires 0 <= p < NPROC
    ensures ViewOf(SetFree(s, p)) == ViewOf(s) && SetFree(s, p).ndefers == s.ndefers
  {
    assert ViewOf(SetFree(s, p)).prio == ViewOf(s).prio;
  }

  lemma FinishFair(s: KState)
    requires Inv(s) && Enabled(s, Finish)
    ensures Fair(ViewOf(s), ViewOf(FinishOp(s)))
  {
    InvRuns(s);
    Fits(s, s.currpid);
    var c := s.conts[s.currpid];
    var s1 := SetCont(s, s.currpid, NoCont);
    CoreIgnores(s, s1, -1);
    assert ViewOf(s1) == ViewOf(s);
    hide Resched, Fair, KillRest, CoreX, Rest;
    if c.InKill? {
      KillFair(s, s1, c.pid);
    } else if c.InTick? && (s.preempt - 1) % 0x1_0000_0000 <= 0 {
      var m := s1.(preempt := QUANTUM);
      CoreIgnores(s, m, -1);
      BlockFair(s, m);
    } else {
      SameLine(s, FinishOp(s));
    }
  }

  lemma StopFair(s: KState)
    requires Inv(s)
    ensures Fair(ViewOf(s), ViewOf(DeferStop(s)))
  {
    InvRuns(s);
    var s1 := s.(ndefers := s.ndefers - 1);
    CoreIgnores(s, s1, -1);
    hide Inv, CoreX, Resched, Fair;
    if s.ndefers == 1 && s.attempt {
      BlockFair(s, s1);
    } else {
      SameLine(s, DeferStop(s));
    }
  }

  lemma FreebufFair(s: KState, i: int, buf: int)
    requires Inv(s)
    ensures CurrInRange(s) && Fair(ViewOf(s), ViewOf(FreebufOp(s, i, buf)))
  {
    hide SignalOp, Fair, Pushed;
    EnterYield(s);
    if 0 <= i < |s.pools| {
      var s1 := s.(pools := s.pools[i := Pushed(s.pools[i], buf)]);
      FreebufMaySignal(s, s1.pools);
      hide Inv, CoreX;
      SignalFair(s, s1, s.pools[i].sem);
    } else {
      SameLine(s, s);
    }
  }

  lemma GetbufFair(s: KState, i: int)
    requires Inv(s) && Enabled(s, Getbuf(i))
    ensures Fair(ViewOf(s), ViewOf(GetbufOp(s, i)))
  {
    EnterYield(s);
    if 0 <= i < |s.pools| {
      GetbufMayWait(s, i);
      var s1 := SetCont(s, s.currpid, InGetbuf(i));
      hide Inv, CoreX, WaitOp, Fair, Private;
      WaitFair(s, s1, s.pools[i].sem);
    } else {
      hide Inv, Fair;
      SameLine(s, s);
    }
  }

  lemma PoolFair(s: KState, op: Op)
    requires Inv(s) && Enabled(s, op) && (op.Getbuf? || op.Nbgetbuf? || op.Freebuf?)
    ensures Fair(ViewOf(s), ViewOf(Step(s, op)))
  {
    hide Inv, Fair, ViewOf, GetbufOp, FreebufOp, Private;
    InvRuns(s);
    match op
    case Getbuf(i) => GetbufFair(s, i);
    case Freebuf(i, buf) => FreebufFair(s, i, buf);
    case Nbgetbuf(i) =>
      if 0 <= i < |s.pools| && !BadSem(s, s.pools[i].sem) && s.sems[s.pools[i].sem].count > 0 {
        GetbufFair(s, i);
      } else {
        SameLine(s, s);
      }
  }

  /** Operations on the tables only. */
  lemma TableFair(s: KState, op: Op)
    requires CurrInRange(s)
    requires op.Semcreate? || op.Create? || op.Mkbufpool? || op.Recvclr? || op.Start?
    ensures Fair(ViewOf(s), ViewOf(Step(s, op)))
  {
    hide FindSem, FindPid, Fair;
    SameLine(s, Step(s, op));
  }

  lemma SyncFair(s: KState, op: Op)
    requires Inv(s) && Enabled(s, op) && (op.Signaln? || op.Semdelete? || op.Semreset?)
    ensures Fair(ViewOf(s), ViewOf(Step(s, op)))
  {
    hide Inv, SignalnOp, SemdeleteOp, SemresetOp, Fair, ViewOf, Private;
    InvRuns(s);
    match op
    case Signaln(k, n) => SignalnFair(s, k, n);
    case Semdelete(k) => SemdeleteFair(s, k);
    case Semreset(k, n) => SemresetFair(s, k, n);
  }

  lemma SemdeleteFair(s: KState, k: int)
    requires Inv(s) && CurrInRange(s) && !Private(s, k)
    ensures Fair(ViewOf(s), ViewOf(SemdeleteOp(s, k)))
  {
    hide Inv, ReleaseAll, Resched, Fair, ViewOf, Private;
    if BadSem(s, k) { SameLine(s, s); } else { DrainFair(s, k, Sem(false, Pos(s.sems[k].count) + 1)); }
  }

  lemma SemresetFair(s: KState, k: int, n: int)
    requires Inv(s) && CurrInRange(s) && !Private(s, k)
    ensures Fair(ViewOf(s), ViewOf(SemresetOp(s, k, n)))
  {
    hide Inv, ReleaseAll, Resched, Fair, ViewOf, Private;
    if n < 0 || BadSem(s, k) {
      SameLine(s, s);
    } else {
      ReleaseAllSems(s, k);
      DrainFair(s, k, s.sems[k].(count := n));
    }
  }

  lemma TimedFair(s: KState, op: Op)
    requires Inv(s) && Enabled(s, op) && (op.Sleepms? || op.Recvtime?)
    ensures Fair(ViewOf(s), ViewOf(Step(s, op)))
  {
    hide Inv, InsertD, Resched, Fair, ViewOf, W32, CoreX, Private;
    EnterYield(s);
    if op.Sleepms? {
      if op.delay == 0 {
        BlockFair(s, s);
      } else {
        assert SetCont(s, s.currpid, s.conts[s.currpid]) == s;
        DelayFair(s, s.conts[s.currpid], W32(op.delay), Sleep);
      }
    } else if op.maxwait >= 0 && !s.procs[s.currpid].hasmsg {
      DelayFair(s, InRecvtime, op.maxwait, RecTim);
    } else {
      SameLine(s, Step(s, op));
    }
  }

  lemma KillCallFair(s: KState, p: int)
    requires Inv(s) && Enabled(s, Kill(p))
    ensures Fair(ViewOf(s), ViewOf(KillOp(s, p)))
  {
    EnterKill(s, p);
    hide Inv, SendOp, Fair;
    if BadPid(s, p) || p == NULLPROC {
      SameLine(s, s);
    } else {
      var s1 := SetCont(s, s.currpid, InKill(p));
      assert ViewOf(s1) == ViewOf(s);
      SendFair(s1, s.procs[p].parent, p);
    }
  }

  // ---- every step ------------------------------------------------------------------

  /** Every step serves the ready list fairly. */
  lemma FairStep(s: KState, op: Op)
    requires Inv(s) && Enabled(s, op)
    ensures Fair(ViewOf(s), ViewOf(Step(s, op)))
  {
    hide Inv, Enabled, Fair, ViewOf, Step;
    InvRuns(s);
    if op.Semcreate? || op.Create? || op.Mkbufpool? || op.Recvclr? || op.Start? {
      TableFair(s, op);
    } else if op.Signaln? || op.Semdelete? || op.Semreset? {
      SyncFair(s, op);
    } else if op.Getbuf? || op.Nbgetbuf? || op.Freebuf? {
      PoolFair(s, op);
    } else if op.Sleepms? || op.Recvtime? {
      TimedFair(s, op);
    } else if op.WaitFor? || op.Signal? {
      SemFair(s, op);
    } else {
      SingleFair(s, op);
    }
  }

  lemma SemFair(s: KState, op: Op)
    requires Inv(s) && Enabled(s, op) && (op.WaitFor? || op.Signal?)
    ensures Fair(ViewOf(s), ViewOf(Step(s, op)))
  {
    InvRuns(s);
    EnterYield(s);
    assert SemOK(s);
    hide Inv, CoreX, SemOK, Fair, ViewOf, WaitOp, SignalOp, Private;
    if op.WaitFor? { WaitFair(s, s, op.sem); } else { SignalFair(s, s, op.sem); }
  }

  lemma SingleFair(s: KState, op: Op)
    requires Inv(s) && Enabled(s, op)
    requires op.Yield? || op.Resume? || op.Suspend? || op.Send? || op.Receive? || op.Kill? || op.Stop? || op.Tick?
        || op.Finish?
    ensures Fair(ViewOf(s), ViewOf(Step(s, op)))
  {
    hide Inv, CoreX, Enabled, Fair, ViewOf, SuspendOp, ResumeOp, SendOp, KillOp, FinishOp, TickOp, ReceiveOp,
      DeferStop, Resched;
    EnterYield(s);
    match op
    case Yield => BlockFair(s, s);
    case Resume(p) => ResumeFair(s, p);
    case Suspend(p) => SuspendFair(s, p);
    case Send(p, m) => SendFair(s, p, m);
    case Receive => ReceiveFair(s);
    case Kill(p) => KillCallFair(s, p);
    case Stop => StopFair(s);
    case Tick => TickFair(s);
    case Finish => FinishFair(s);
  }

  /** In the terms of the process table: (i) ready processes keep their order, (ii) a newcomer
      stands behind every ready process of at least its priority. */
  lemma ReadyOrderStep(s: KState, op: Op, p: int, q: int)
    requires Inv(s) && Enabled(s, op) && 0 <= p < NPROC && 0 <= q < NPROC
    requires var l, l' := s.lists[READYQ], Step(s, op).lists[READYQ]; p in l && p in l' && q in l'
    ensures var l, l', t := s.lists[READYQ], Step(s, op).lists[READYQ], Step(s, op);
            && (Before(l, p, q) ==> Before(l', p, q))
            && (q !in l && t.procs[p].prio >= t.procs[q].prio ==> Before(l', p, q))
  {
    hide Inv, Enabled, Step, Before;
    InvRuns(s);
    FairStep(s, op);
    var v, w := ViewOf(s), ViewOf(Step(s, op));
    assert Key(w.prio, p) == Step(s, op).procs[p].prio && Key(w.prio, q) == Step(s, op).procs[q].prio;
  }

  // ---- whole runs ------------------------------------------------------------------

  /** `x` neither runs nor stands ahead of `p`. */
  predicate Behind(s: KState, p: int, x: int) {
    s.currpid != x && (x in s.lists[READYQ] ==> Before(s.lists[READYQ], p, x))
  }

  /** `p` stays ready throughout, and `x` never has more priority. */
  ghost predicate KeepsWaiting(s: KState, ops: seq<Op>, p: int, x: int)
    requires Legal(s, ops) && 0 <= p < NPROC && 0 <= x < NPROC
    decreases |ops|
  {
    && p in s.lists[READYQ] && s.procs[p].prio >= s.procs[x].prio
    && (ops == [] || KeepsWaiting(Step(s, ops[0]), ops[1..], p, x))
  }

  lemma StaysBehind(s: KState, op: Op, p: int, x: int)
    requires Inv(s) && Enabled(s, op) && 0 <= p < NPROC && 0 <= x < NPROC && Behind(s, p, x)
    requires var t := Step(s, op); p in s.lists[READYQ] && p in t.lists[READYQ] && t.procs[p].prio >= t.procs[x].prio
    ensures Behind(Step(s, op), p, x)
  {
    InvRuns(s);
    FairStep(s, op);
    var v, w := ViewOf(s), ViewOf(Step(s, op));
    assert Key(w.prio, p) >= Key(w.prio, x);
    hide Inv, Step;
    assert Before(w.ready, p, x) || !Before(w.ready, p, x);
    assert Before(v.ready, x, p) ==> !Before(v.ready, p, x);
  }

  /** No overtaking: as long as a process stays ready, no process of at most its priority that
      was not running or ahead of it gets the CPU, or even ahead of it. */
  lemma {:induction false} NoOvertaking(s: KState, ops: seq<Op>, p: int, x: int)
    requires Inv(s) && Legal(s, ops) && 0 <= p < NPROC && 0 <= x < NPROC
    requires KeepsWaiting(s, ops, p, x) && Behind(s, p, x)
    ensures Behind(Exec(s, ops), p, x)
    decreases |ops|
  {
    hide Inv, Step, Behind, Enabled;
    if ops != [] {
      InvRuns(s);
      StaysBehind(s, ops[0], p, x);
      StepInv(s, ops[0]);
      NoOvertaking(Step(s, ops[0]), ops[1..], p, x);
    }
  }

  /** Whoever loses the CPU while `p` stays ready is behind it, unless it has more priority. */
  lemma LosesCpu(s: KState, op: Op, p: int, x: int)
    requires Inv(s) && Enabled(s, op) && 0 <= p < NPROC && 0 <= x < NPROC && s.currpid == x
    requires var t := Step(s, op);
             && p in s.lists[READYQ] && p in t.lists[READYQ] && t.procs[p].prio >= t.procs[x].prio && t.currpid != x
    ensures Behind(Step(s, op), p, x)
  {
    InvRuns(s);
    LineInOrder(s, -1);
    FairStep(s, op);
    var v, w := ViewOf(s), ViewOf(Step(s, op));
    assert Key(w.prio, p) >= Key(w.prio, x) && x !in v.ready;
    hide Inv, Step;
    assert Before(w.ready, p, x) || !Before(w.ready, p, x);
  }

  /** How often `x` gets the CPU during a run. */
  ghost function Turns(s: KState, ops: seq<Op>, x: int): nat
    requires Legal(s, ops)
    decreases |ops|
  {
    if ops == [] then 0
    else
      var t := Step(s, ops[0]);
      (if s.currpid != x && t.currpid == x then 1 else 0) + Turns(t, ops[1..], x)
  }

  /** Bounded overtaking: while a process stays ready, a process of at most its priority gets the
      CPU at most once, and not at all if it runs already or is behind. */
  lemma {:induction false} AtMostOneTurn(s: KState, ops: seq<Op>, p: int, x: int)
    requires Inv(s) && Legal(s, ops) && 0 <= p < NPROC && 0 <= x < NPROC && KeepsWaiting(s, ops, p, x)
    ensures Turns(s, ops, x) <= 1
    ensures s.currpid == x || Behind(s, p, x) ==> Turns(s, ops, x) == 0
    decreases |ops|
  {
    hide Inv, Step, Enabled;
    if ops != [] {
      InvRuns(s);
      var t := Step(s, ops[0]);
      StepInv(s, ops[0]);
      AtMostOneTurn(t, ops[1..], p, x);
      if Behind(s, p, x) {
        StaysBehind(s, ops[0], p, x);
      } else if s.currpid == x && t.currpid != x {
        LosesCpu(s, ops[0], p, x);
      }
    }
  }
}
