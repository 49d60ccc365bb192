/** Exact wake-up: time on the sleep queue over single steps and whole runs. */
module KernelWakeup {
  import opened KernelState
  import opened KernelInvariant
  import opened KernelSteps
  import opened KernelSafety
  import opened KernelRuns
  import opened DeltaList
  import opened KernelTimer
  import opened KernelClock

  /** Delays that fit the int32 the delta list stores. */
  predicate DelayFits(op: Op) {
    (op.Sleepms? ==> 0 <= op.delay <= MAXKEY) && (op.Recvtime? ==> op.maxwait <= MAXKEY)
  }

  /** A `recvtime(0)` that finds no message puts its caller at the head with no time to wait. */
  predicate ZeroTimeout(s: KState, op: Op)
    requires CurrInRange(s)
  {
    op == Recvtime(0) && !s.procs[s.currpid].hasmsg
  }

  /** `p` is taken off the sleep queue by something other than the clock. */
  predicate WokenEarly(s: KState, op: Op, p: int)
    requires CurrInRange(s)
  {
    match op
    case Send(q, _) => q == p && Timed(s, p)
    case Kill(q) => !BadPid(s, q) && q != NULLPROC && s.procs[q].parent == p && Timed(s, p)
    case Finish => Victim(s, op) == p
    case _ => false
  }

  predicate Timed(s: KState, p: int) { 0 <= p < NPROC && s.procs[p].state.RecTim? && !s.procs[p].hasmsg }

  // ---- operations that put a process to sleep --------------------------------------

  /** Time left survives a calm step, whoever is excepted. */
  lemma CalmOthers(s: KState, m: KState, y: int, t: KState, x: int)
    requires CoreX(m, y) && Core(t) && Calm(m, t) && OthersKeepTime(s, m, x)
    ensures OthersKeepTime(s, t, x)
    ensures (TimerOK(m) ==> TimerOK(t)) && (HeadPositive(m) ==> HeadPositive(t))
    ensures forall p :: Asleep(m, p) ==> Asleep(t, p) && Due(t, p) == Due(m, p)
  {
    hide CoreX, Calm, Due;
    CalmTime(m, y, t);
  }

  lemma DelayMid(s: KState, p: int, key: int, st: PrState)
    requires CoreX(s, p) && 0 < p < NPROC && (st.Sleep? || st.RecTim?) && TimerOK(s) && 0 <= key <= MAXKEY
    ensures var m := SetState(InsertD(s, p, key), p, st);
            && Core(m) && TimerOK(m) && OthersKeepTime(s, m, p) && Asleep(m, p) && Due(m, p) == key
            && (HeadPositive(s) && key >= 1 ==> HeadPositive(m))
  {
    InsertDTime(s, p, key);
    InsertDTimer(s, p, key);
    InsertDCore(s, p, key, st);
    hide CoreX, InsertD;
  }

  lemma DelayTime(s: KState, c: Cont, key: int, st: PrState)
    requires Inv(s) && s.conts[s.currpid].NoCont? && s.currpid != NULLPROC && s.ndefers == 0
    requires (st.Sleep? && c.NoCont?) || (st.RecTim? && c.InRecvtime? && !s.procs[s.currpid].hasmsg)
    requires TimerOK(s) && 0 <= key <= MAXKEY
    ensures var p := s.currpid; var t := Resched(SetState(InsertD(SetCont(s, p, c), p, key), p, st));
            && TimerOK(t) && OthersKeepTime(s, t, p) && Asleep(t, p) && Due(t, p) == key
            && (HeadPositive(s) && key >= 1 ==> HeadPositive(t))
  {
    var p := s.currpid;
    var s1 := SetCont(s, p, c);
    var m := SetState(InsertD(s1, p, key), p, st);
    DelayInv(s, c, key, st);
    Lift(s, p);
    CoreIgnores(s, s1, p);
    DelayMid(s1, p, key, st);
    assert OthersKeepTime(s, m, p);
    InsertDKeys(s1, p, key);
    ReschedCalm(m);
    hide CoreX, Rest, InsertD, Resched, Calm, TimerOK, HeadPositive, Due;
    CalmOthers(s, m, -1, Resched(m), p);
  }

  // ---- operations that take one off early ------------------------------------------

  lemma DeliverMid(s: KState, q: int, pr: Proc)
    requires Core(s) && Timed(s, q) && pr == s.procs[q].(msg := pr.msg, hasmsg := true) && TimerOK(s)
    ensures var u := Unsleep(SetProc(s, q, pr), q);
            && CoreX(u, q) && TimerOK(u) && (HeadPositive(s) ==> HeadPositive(u)) && OthersKeepTime(s, u, q)
            && u.currpid == s.currpid
  {
    var s1 := SetProc(s, q, pr);
    AtHome(s, q);
    SameStateCore(s, q, pr);
    UnsleepCore(s1, q);
    UnsleepTime(s1, q);
    UnsleepTimer(s1, q);
    assert Unsleep(s1, q).currpid == s.currpid;
    hide CoreX, Unsleep;
  }

  lemma DeliverTime(s: KState, q: int, pr: Proc)
    requires Inv(s) && Timed(s, q) && pr == s.procs[q].(msg := pr.msg, hasmsg := true) && TimerOK(s)
    ensures var t := Resched(MakeReady(Unsleep(SetProc(s, q, pr), q), q));
            TimerOK(t) && (HeadPositive(s) ==> HeadPositive(t)) && OthersKeepTime(s, t, q)
  {
    var u := Unsleep(SetProc(s, q, pr), q);
    DeliverInv(s, q, pr, u);
    DeliverMid(s, q, pr);
    MakeReadyCalm(u, q);
    MakeReadyCurr(u, q);
    hide CoreX, Rest, Unsleep, MakeReady, Resched, Calm, TimerOK, HeadPositive;
    ThenResched(u, MakeReady(u, q));
    CalmOthers(s, u, q, Resched(MakeReady(u, q)), q);
  }

  lemma SendTimed(s: KState, q: int, msg: int)
    requires CurrInRange(s) && Timed(s, q)
    ensures SendOp(s, q, msg) ==
              Resched(MakeReady(Unsleep(SetProc(s, q, s.procs[q].(msg := msg, hasmsg := true)), q), q))
  {
    hide Resched, MakeReady, Unsleep;
  }

  lemma SendTime(s: KState, q: int, msg: int)
    requires Inv(s) && TimerOK(s)
    ensures var t := SendOp(s, q, msg);
            TimerOK(t) && (HeadPositive(s) ==> HeadPositive(t)) && OthersKeepTime(s, t, if Timed(s, q) then q else -1)
  {
    InvRuns(s);
    if Timed(s, q) {
      hide Inv, TimerOK, HeadPositive, OthersKeepTime, SendOp, Unsleep, MakeReady, Resched;
      SendTimed(s, q, msg);
      DeliverTime(s, q, s.procs[q].(msg := msg, hasmsg := true));
    } else {
      hide CoreX, Rest, Calm, SendOp;
      SendInv(s, q, msg);
      SendCalm(s, q, msg);
      CalmTime(s, -1, SendOp(s, q, msg));
    }
  }

  lemma KillTime(s: KState, v: int)
    requires Inv(s) && TimerOK(s) && 0 < v < NPROC && Sleeps(s.procs[v])
    ensures var t := KillRest(s, v);
            TimerOK(t) && (HeadPositive(s) ==> HeadPositive(t)) && OthersKeepTime(s, t, v)
  {
    AtHome(s, v);
    UnsleepTime(s, v);
    UnsleepTimer(s, v);
    hide CoreX, Rest, Unsleep, SetFree;
  }

  lemma FinishTime(s: KState)
    requires Inv(s) && Enabled(s, Finish) && TimerOK(s)
    ensures var t := FinishOp(s);
            TimerOK(t) && (HeadPositive(s) ==> HeadPositive(t)) && OthersKeepTime(s, t, Victim(s, Finish))
  {
    FinishInv(s);
    InvRuns(s);
    Fits(s, s.currpid);
    var v := Victim(s, Finish);
    if 0 <= v < NPROC && Sleeps(s.procs[v]) {
      SetContInv(s, NoCont);
      hide CoreX, Rest, KillRest, Running;
      KillTime(SetCont(s, s.currpid, NoCont), v);
    } else {
      FinishCalm(s);
      hide CoreX, Rest, Calm, FinishOp;
      CalmTime(s, -1, FinishOp(s));
    }
  }

  // ---- the clock -------------------------------------------------------------------

  /** A tick lowers everybody's remaining time by one, exactly when nobody at the head was
      already overdue; otherwise it is spent on the overdue head and lowers nobody's. */
  lemma TickTime(s: KState, q: int)
    requires Inv(s) && Enabled(s, Tick) && TimerOK(s)
    ensures TimerOK(TickOp(s)) && (HeadPositive(s) ==> HeadPositive(TickOp(s)))
    ensures Asleep(s, q) ==> Aged(s, TickOp(s), q, if HeadPositive(s) then 1 else 0)
  {
    var s0 := SetCont(s, s.currpid, InTick);
    var s1 := DecFirst(s0);
    SetContInv(s, InTick);
    InvRuns(s);
    var l := s.lists[SLEEPQ];
    if l != [] {
      DecFirstTime(s0);
      hide CoreX, Rest, WakeLoop, Resched, DecFirst;
      if Key(s1.keys, l[0]) > 0 {
        NoWakeTime(s, s1, q);
      } else {
        WakingTick(s, q);
      }
    }
  }

  /** A tick that calls `wakeup`. */
  lemma WakingTick(s: KState, q: int)
    requires Inv(s) && Enabled(s, Tick) && TimerOK(s) && s.lists[SLEEPQ] != []
    ensures var t := Resched(WakeLoop(DecFirst(SetCont(s, s.currpid, InTick))));
            && TimerOK(t) && HeadPositive(t)
            && (Asleep(s, q) ==> Aged(s, t, q, if HeadPositive(s) then 1 else 0))
  {
    hide CoreX, Rest, WakeLoop, Resched, Calm, DecFirst, KeepsRunning;
    var s0 := SetCont(s, s.currpid, InTick);
    var s1 := DecFirst(s0);
    SetContInv(s, InTick);
    DecFirstInv(s0);
    InvRuns(s);
    WakeLoopRest(s1);
    var w := WakeLoop(s1);
    ReschedInv(w);
    ReschedCalm(w);
    WakeTime(s0, if Asleep(s, q) then q else s.lists[SLEEPQ][0]);
    CalmTime(w, -1, Resched(w));
    KeptRunning(s, w, q);
  }

  lemma KeptRunning(s: KState, w: KState, q: int)
    requires CurrInRange(w) && Core(w) && Core(Resched(w)) && KeepsRunning(w, Resched(w)) && Calm(w, Resched(w))
    requires forall p :: Asleep(w, p) ==> Asleep(Resched(w), p) && Due(Resched(w), p) == Due(w, p)
    ensures forall d: int :: Asleep(s, q) && Aged(s, w, q, d) ==> Aged(s, Resched(w), q, d)
  {
    hide Due, Resched;
    forall d: int | Asleep(s, q) && Aged(s, w, q, d)
      ensures Aged(s, Resched(w), q, d)
    {
      if Asleep(Resched(w), q) && !Asleep(w, q) { assert false; }
    }
  }

  lemma NoWakeTime(s: KState, t: KState, q: int)
    requires TimerOK(s) && t.lists[SLEEPQ] == s.lists[SLEEPQ] != []
    requires var l := s.lists[SLEEPQ];
             && Key(t.keys, l[0]) == Key(s.keys, l[0]) - 1 > 0
             && (forall i :: 0 < i < |l| ==> Key(t.keys, l[i]) == Key(s.keys, l[i]))
             && (forall n: nat :: 1 <= n <= |l| ==> Pre(l, t.keys, n) == Pre(l, s.keys, n) - 1)
    ensures HeadPositive(s) && TimerOK(t) && HeadPositive(t)
    ensures Asleep(s, q) ==> Aged(s, t, q, 1)
  {
    var l := s.lists[SLEEPQ];
    forall i | 0 <= i < |l|
      ensures Key(t.keys, l[i]) >= 0
    {
    }
    if Asleep(s, q) { DuePositive(s, q); }
  }

  // ---- every step ------------------------------------------------------------------

  /** Operations that never touch the sleepers. */
  lemma CalmStep(s: KState, op: Op)
    requires Inv(s) && Enabled(s, op)
    requires !op.Tick? && !op.Send? && !op.Kill? && !op.Finish? && (op.Sleepms? ==> op.delay == 0)
    requires op.Recvtime? ==> op.maxwait < 0 || s.procs[s.currpid].hasmsg
    ensures Calm(s, Step(s, op))
  {
    InvRuns(s);
    if op.Signaln? || op.Semdelete? || op.Semreset? {
      SyncCalm(s, op);
    } else if op.Getbuf? || op.Nbgetbuf? || op.Freebuf? {
      PoolCalm(s, op);
    } else if op.Semcreate? || op.Create? || op.Mkbufpool? || op.Recvclr? {
      TableCalm(s, op);
    } else if op.WaitFor? {
      WaitCalm(s, op.sem);
    } else if op.Signal? {
      SignalCalm(s, op.sem);
    } else if op.Receive? {
      ReceiveCalm(s);
    } else if op.Recvtime? {
      SameCalm(s, Step(s, op));
    } else {
      SchedCalm(s, op);
    }
    hide Inv, Enabled, WaitOp, SignalOp, ReceiveOp, SignalnOp, SemdeleteOp, SemresetOp, GetbufOp, NbgetbufOp, FreebufOp,
      SemcreateOp, CreateOp, MkbufpoolOp, Resched, ResumeOp, SuspendOp, DeferStop, Calm;
  }

  /** One step: time stands still for every sleeper except at a tick. */
  lemma SleeperStep(s: KState, op: Op, p: int)
    requires Inv(s) && Enabled(s, op) && TimerOK(s) && DelayFits(op)
    ensures TimerOK(Step(s, op))
    ensures HeadPositive(s) && !ZeroTimeout(s, op) ==> HeadPositive(Step(s, op))
    ensures Asleep(s, p) && op.Tick? ==> Aged(s, Step(s, op), p, if HeadPositive(s) then 1 else 0)
    ensures Asleep(s, p) && !op.Tick? && !WokenEarly(s, op, p) ==>
              Asleep(Step(s, op), p) && Due(Step(s, op), p) == Due(s, p)
  {
    InvRuns(s);
    if op.Tick? {
      TickTime(s, p);
    } else if op.Send? {
      SendTime(s, op.pid, op.msg);
    } else if op.Kill? {
      KillOpTime(s, op.pid);
    } else if op.Finish? {
      FinishTime(s);
    } else if Delays(s, op) {
      DelayStep(s, op);
      AwakeCurr(s);
    } else {
      StepInv(s, op);
      CalmStep(s, op);
      hide Inv, Enabled, Step, Calm;
      CalmTimeInv(s, Step(s, op));
    }
    hide Inv, Enabled, TickOp, SendOp, KillOp, FinishOp, SleepmsOp, RecvtimeOp, TimerOK, Due, HeadPositive;
  }

  lemma AwakeCurr(s: KState)
    requires Inv(s)
    ensures !Asleep(s, s.currpid)
  {
    if Asleep(s, s.currpid) { SleeperState(s, -1, s.currpid); }
  }

  lemma CalmTimeInv(s: KState, t: KState)
    requires Inv(s) && Inv(t) && Calm(s, t)
    ensures (TimerOK(s) ==> TimerOK(t)) && (HeadPositive(s) ==> HeadPositive(t))
    ensures forall p :: Asleep(s, p) ==> Asleep(t, p) && Due(t, p) == Due(s, p)
  {
    hide CoreX, Rest, Calm;
    CalmTime(s, -1, t);
  }

  lemma KillOpTime(s: KState, q: int)
    requires Inv(s) && Enabled(s, Kill(q)) && TimerOK(s)
    ensures var t := KillOp(s, q); TimerOK(t) && (HeadPositive(s) ==> HeadPositive(t))
    ensures forall p :: Asleep(s, p) && !WokenEarly(s, Kill(q), p) ==>
              Asleep(KillOp(s, q), p) && Due(KillOp(s, q), p) == Due(s, p)
  {
    if !BadPid(s, q) && q != NULLPROC {
      SetContInv(s, InKill(q));
      hide Inv, SendOp;
      SendTime(SetCont(s, s.currpid, InKill(q)), s.procs[q].parent, q);
    }
  }

  /** Operations that put the caller to sleep, and for how long. */
  predicate Delays(s: KState, op: Op)
    requires CurrInRange(s)
  {
    (op.Sleepms? && op.delay != 0) || (op.Recvtime? && op.maxwait >= 0 && !s.procs[s.currpid].hasmsg)
  }

  function DelayOf(op: Op): int {
    match op
    case Sleepms(d) => d
    case Recvtime(d) => d
    case _ => 0
  }

  lemma SleepDelay(s: KState, d: int)
    requires Inv(s) && Enabled(s, Sleepms(d)) && TimerOK(s) && 0 < d <= MAXKEY
    ensures var t := Step(s, Sleepms(d));
            && TimerOK(t) && OthersKeepTime(s, t, s.currpid) && Asleep(t, s.currpid) && Due(t, s.currpid) == d
            && (HeadPositive(s) ==> HeadPositive(t))
  {
    hide Inv, W32, InsertD, Resched, TimerOK, HeadPositive, Due, Asleep, OthersKeepTime;
    InvRuns(s);
    W32Id(d);
    assert SetCont(s, s.currpid, NoCont) == s;
    DelayTime(s, NoCont, d, Sleep);
  }

  lemma TimeoutDelay(s: KState, d: int)
    requires Inv(s) && Enabled(s, Recvtime(d)) && TimerOK(s) && 0 <= d <= MAXKEY && !s.procs[s.currpid].hasmsg
    ensures var t := Step(s, Recvtime(d));
            && TimerOK(t) && OthersKeepTime(s, t, s.currpid) && Asleep(t, s.currpid) && Due(t, s.currpid) == d
            && (HeadPositive(s) && d >= 1 ==> HeadPositive(t))
  {
    hide Inv, InsertD, Resched, TimerOK, HeadPositive, Due, Asleep, OthersKeepTime;
    InvRuns(s);
    DelayTime(s, InRecvtime, d, RecTim);
  }

  /** `sleepms(d)` and a blocking `recvtime(d)` leave the caller asleep with `d` ticks to go. */
  lemma DelayStep(s: KState, op: Op)
    requires Inv(s) && Enabled(s, op) && TimerOK(s) && DelayFits(op) && Delays(s, op)
    ensures var t := Step(s, op);
            && TimerOK(t) && OthersKeepTime(s, t, s.currpid)
            && Asleep(t, s.currpid) && Due(t, s.currpid) == DelayOf(op)
            && (HeadPositive(s) && !ZeroTimeout(s, op) ==> HeadPositive(t))
  {
    hide Inv, Enabled, Step, TimerOK, HeadPositive, Due, Asleep, OthersKeepTime;
    if op.Sleepms? {
      SleepDelay(s, op.delay);
    } else {
      TimeoutDelay(s, op.maxwait);
    }
  }

  // ---- whole runs ------------------------------------------------------------------

  function Ticks(ops: seq<Op>): nat {
    if ops == [] then 0 else (if ops[0].Tick? then 1 else 0) + Ticks(ops[1..])
  }

  /** The ticks of a run that lower the remaining times: those that find no overdue process at
      the head of the sleep queue. */
  ghost function Effective(s: KState, ops: seq<Op>): (n: nat)
    requires Legal(s, ops)
    ensures n <= Ticks(ops)
    decreases |ops|
  {
    if ops == [] then 0
    else (if ops[0].Tick? && HeadPositive(s) then 1 else 0) + Effective(Step(s, ops[0]), ops[1..])
  }

  ghost predicate DelaysFit(ops: seq<Op>) { forall i :: 0 <= i < |ops| ==> DelayFits(ops[i]) }

  lemma DelaysFitTail(ops: seq<Op>)
    requires DelaysFit(ops) && ops != []
    ensures DelayFits(ops[0]) && DelaysFit(ops[1..])
  {
    assert forall i :: 0 <= i < |ops| - 1 ==> ops[1..][i] == ops[i + 1];
  }

  /** `p` is not woken early. */
  ghost predicate Undisturbed(s: KState, ops: seq<Op>, p: int)
    requires Legal(s, ops)
    decreases |ops|
  {
    ops == [] || (!WokenEarly(s, ops[0], p) && Undisturbed(Step(s, ops[0]), ops[1..], p))
  }

  /** As long as fewer than `Due` effective ticks have passed, the sleeper sleeps on, with
      exactly the rest of its time to go. */
  lemma {:induction false} SleepsOn(s: KState, ops: seq<Op>, p: int)
    requires Inv(s) && TimerOK(s) && Legal(s, ops) && DelaysFit(ops) && Asleep(s, p)
    requires Undisturbed(s, ops, p) && Effective(s, ops) < Due(s, p)
    ensures var t := Exec(s, ops);
            Inv(t) && TimerOK(t) && Asleep(t, p) && Due(t, p) == Due(s, p) - Effective(s, ops)
    decreases |ops|
  {
    hide Inv, TimerOK, HeadPositive, Due, Step, WokenEarly, MayBlock;
    if ops != [] {
      DelaysFitTail(ops);
      hide DelaysFit;
      SleeperStep(s, ops[0], p);
      StepInv(s, ops[0]);
      SleepsOn(Step(s, ops[0]), ops[1..], p);
    }
  }

  /** `p` came off the sleep queue and is ready or running. */
  predicate Awake(s: KState, p: int) { 0 <= p < NPROC && !Asleep(s, p) && Runs(s.procs[p]) }

  /** The next tick releases the sleeper exactly when it is effective and the last one due. */
  lemma NextTick(s: KState, ops: seq<Op>, p: int)
    requires Inv(s) && TimerOK(s) && Legal(s, ops) && DelaysFit(ops) && Asleep(s, p)
    requires Undisturbed(s, ops, p) && Effective(s, ops) < Due(s, p) && Enabled(Exec(s, ops), Tick)
    ensures var t := Step(Exec(s, ops), Tick);
            && (Awake(t, p) <==> HeadPositive(Exec(s, ops)) && Effective(s, ops) == Due(s, p) - 1)
            && (Awake(t, p) <==> !Asleep(t, p))
  {
    hide Inv, TimerOK, HeadPositive, Due, Step, Enabled, Effective, Undisturbed;
    SleepsOn(s, ops, p);
    SleeperStep(Exec(s, ops), Tick, p);
  }

  /** A sleeper due in d ticks wakes at the d-th tick exactly when every tick up to and
      including that one found no overdue process at the head of the queue. */
  lemma ExactWakeup(s: KState, ops: seq<Op>, p: int)
    requires Inv(s) && TimerOK(s) && Legal(s, ops) && DelaysFit(ops) && Asleep(s, p)
    requires Undisturbed(s, ops, p) && Ticks(ops) == Due(s, p) - 1 && Enabled(Exec(s, ops), Tick)
    ensures Asleep(Exec(s, ops), p)
    ensures Awake(Step(Exec(s, ops), Tick), p) <==> Effective(s, ops) == Ticks(ops) && HeadPositive(Exec(s, ops))
  {
    hide Inv, TimerOK, HeadPositive, Due, Step, Enabled, Undisturbed;
    SleepsOn(s, ops, p);
    NextTick(s, ops, p);
  }

  /** No call of the run is a zero timeout that blocks. */
  ghost predicate NoZeroTimeout(s: KState, ops: seq<Op>)
    requires Legal(s, ops)
    decreases |ops|
  {
    ops == [] || (!ZeroTimeout(s, ops[0]) && NoZeroTimeout(Step(s, ops[0]), ops[1..]))
  }

  lemma {:induction false} AllEffective(s: KState, ops: seq<Op>)
    requires Inv(s) && TimerOK(s) && HeadPositive(s) && Legal(s, ops) && DelaysFit(ops) && NoZeroTimeout(s, ops)
    ensures HeadPositive(Exec(s, ops)) && Effective(s, ops) == Ticks(ops)
    decreases |ops|
  {
    hide Inv, TimerOK, HeadPositive, Step, MayBlock, ZeroTimeout;
    if ops != [] {
      DelaysFitTail(ops);
      hide DelaysFit;
      SleeperStep(s, ops[0], 0);
      StepInv(s, ops[0]);
      AllEffective(Step(s, ops[0]), ops[1..]);
    }
  }

  /** Without blocking zero timeouts every sleeper wakes at exactly its tick. */
  lemma PunctualWakeup(s: KState, ops: seq<Op>, p: int)
    requires Inv(s) && TimerOK(s) && HeadPositive(s) && Legal(s, ops) && DelaysFit(ops) && NoZeroTimeout(s, ops)
    requires Asleep(s, p) && Undisturbed(s, ops, p) && Ticks(ops) == Due(s, p) - 1 && Enabled(Exec(s, ops), Tick)
    ensures Asleep(Exec(s, ops), p) && Awake(Step(Exec(s, ops), Tick), p)
  {
    hide Inv, TimerOK, HeadPositive, Due, Step, Enabled, Undisturbed, Effective, Asleep, Awake;
    AllEffective(s, ops);
    ExactWakeup(s, ops, p);
  }

  lemma BootTimer()
    ensures TimerOK(Boot()) && HeadPositive(Boot())
  {
  }

  lemma {:induction false} TimerRun(s: KState, ops: seq<Op>)
    requires Inv(s) && TimerOK(s) && Legal(s, ops) && DelaysFit(ops)
    ensures TimerOK(Exec(s, ops))
    decreases |ops|
  {
    hide Inv, TimerOK, HeadPositive, Step, MayBlock;
    if ops != [] {
      DelaysFitTail(ops);
      hide DelaysFit;
      SleeperStep(s, ops[0], 0);
      StepInv(s, ops[0]);
      TimerRun(Step(s, ops[0]), ops[1..]);
    }
  }

  /** From boot, through any history: a process that goes to sleep for d ticks, by `sleepms` or
      by a `recvtime` that blocks, and is not woken early, is still asleep after d - 1 ticks;
      the next one wakes it exactly when all d ticks were effective. */
  lemma SleepFromBoot(before: seq<Op>, op: Op, ops: seq<Op>)
    requires Legal(Boot(), before) && DelaysFit(before) && DelaysFit(ops) && DelayFits(op)
    requires var s := Exec(Boot(), before);
             && Enabled(s, op) && Delays(s, op) && DelayOf(op) > 0
             && Legal(Step(s, op), ops) && Undisturbed(Step(s, op), ops, s.currpid)
             && Ticks(ops) == DelayOf(op) - 1 && Enabled(Exec(Step(s, op), ops), Tick)
    ensures var s := Exec(Boot(), before); var t := Step(s, op); var u := Exec(t, ops);
            && CurrInRange(s) && Asleep(u, s.currpid)
            && (Awake(Step(u, Tick), s.currpid) <==> Effective(t, ops) == Ticks(ops) && HeadPositive(u))
  {
    var s := Exec(Boot(), before);
    BootInv();
    BootTimer();
    hide Inv, TimerOK, HeadPositive, Step, MayBlock, Boot, Due, Asleep, Effective, Awake, DelaysFit;
    RunInv(Boot(), before);
    TimerRun(Boot(), before);
    StepInv(s, op);
    DelayStep(s, op);
    ExactWakeup(Step(s, op), ops, s.currpid);
  }

  /** A zero timeout at the head costs the others a tick: with p0 due at once and p1 due in
      one tick, the tick releases p0 only. */
  lemma ZeroTimeoutDelaysOthers(s: KState, p0: int, p1: int)
    requires Inv(s) && Enabled(s, Tick) && TimerOK(s)
    requires s.lists[SLEEPQ] == [p0, p1] && p0 != p1 && Key(s.keys, p0) == 0 && Key(s.keys, p1) == 1
    ensures Asleep(s, p1) && Due(s, p1) == 1
    ensures Asleep(TickOp(s), p1) && Due(TickOp(s), p1) == 1
  {
    var l := s.lists[SLEEPQ];
    assert l[0] == p0 && l[1] == p1;
    assert IndexOf(l[1..], p1) == 0;
    assert Pre(l, s.keys, 2) == Pre(l, s.keys, 1) + Key(s.keys, l[1]);
    assert Pre(l, s.keys, 1) == Pre(l, s.keys, 0) + Key(s.keys, l[0]);
    TickTime(s, p1);
    hide TickOp, CoreX, Rest;
  }
}
