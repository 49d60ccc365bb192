/**
 Whole runs of the kernel: the invariant in every reachable state, what it says about queues
 and scheduling, and semaphore accounting.
 */
module KernelRuns {
  import opened KernelState
  import opened KernelInvariant
  import opened KernelSteps
  import opened KernelSafety

  /** Every operation of the sequence is enabled when its turn comes. */
  ghost predicate Legal(s: KState, ops: seq<Op>)
    decreases |ops|
  {
    ops == [] || (Enabled(s, ops[0]) && Legal(Step(s, ops[0]), ops[1..]))
  }

  ghost function Exec(s: KState, ops: seq<Op>): KState
    requires Legal(s, ops)
    decreases |ops|
  {
    if ops == [] then s else Exec(Step(s, ops[0]), ops[1..])
  }

  lemma {:induction false} RunInv(s: KState, ops: seq<Op>)
    requires Inv(s) && Legal(s, ops)
    ensures Inv(Exec(s, ops))
    decreases |ops|
  {
    if ops != [] {
      StepInv(s, ops[0]);
      RunInv(Step(s, ops[0]), ops[1..]);
    }
  }

  lemma ReachableInv(ops: seq<Op>)
    requires Legal(Boot(), ops)
    ensures Inv(Exec(Boot(), ops))
  {
    BootInv();
    RunInv(Boot(), ops);
  }

  /** Process states and queues agree exactly, for one process. */
  ghost predicate Agrees(s: KState, p: int)
    requires 0 <= p < NPROC
  {
    var st := s.procs[p].state;
    && (p in s.lists[READYQ] <==> st.Ready?)
    && (p in s.lists[SLEEPQ] <==> st.Sleep? || st.RecTim?)
    && (forall k :: 0 <= k < NSEM ==> (p in s.lists[k] <==> st.Wait? && s.procs[p].sem == k))
    && (st.Curr? <==> p == s.currpid)
  }

  lemma InvAgrees(s: KState, p: int)
    requires Inv(s) && 0 <= p < NPROC
    ensures Agrees(s, p)
  {
    AtHome(s, p);
  }

  /** In every reachable state, each process is exactly where its state says, on at most one
      queue and at most once, and exactly the current process is marked current. */
  lemma ReachableAgreement(ops: seq<Op>)
    requires Legal(Boot(), ops)
    ensures forall p :: 0 <= p < NPROC ==> Agrees(Exec(Boot(), ops), p)
    ensures forall k :: 0 <= k < NLISTS ==> NoDup(Exec(Boot(), ops).lists[k])
  {
    ReachableInv(ops);
    forall p | 0 <= p < NPROC
      ensures Agrees(Exec(Boot(), ops), p)
    {
      InvAgrees(Exec(Boot(), ops), p);
    }
  }

  predicate Outranks(s: KState, p: int, q: int) {
    0 <= p < NPROC && 0 <= q < NPROC && s.procs[p].prio >= s.procs[q].prio
  }

  /** The running process outranks the ready ones, which stand in descending order, and the
      null process keeps the ready list from running dry. */
  ghost predicate Scheduled(s: KState) {
    var l := s.lists[READYQ];
    && CurrInRange(s)
    && (s.ndefers == 0 || !s.attempt ==>
          forall q :: q in l && 0 <= q < NPROC ==> s.procs[s.currpid].prio >= s.procs[q].prio)
    && (forall i, j :: 0 <= i < j < |l| ==>
          Outranks(s, l[i], l[j]))
    && (s.currpid != NULLPROC ==> NULLPROC in l)
  }

  lemma InvScheduled(s: KState)
    requires Inv(s)
    ensures Scheduled(s)
  {
    var l := s.lists[READYQ];
    AtHome(s, NULLPROC);
    forall i, j | 0 <= i < j < |l|
      ensures Outranks(s, l[i], l[j])
    {
      assert l[i] in l && l[j] in l;
      assert Key(s.keys, l[i]) >= Key(s.keys, l[j]);
    }
  }

  lemma ReachableSchedule(ops: seq<Op>)
    requires Legal(Boot(), ops)
    ensures Scheduled(Exec(Boot(), ops))
  {
    ReachableInv(ops);
    InvScheduled(Exec(Boot(), ops));
  }

  // ---- semaphore accounting --------------------------------------------------------

  /** The semaphore an operation signals or waits on, if any. */
  function Target(s: KState, op: Op): int {
    match op
    case WaitFor(sem) => sem
    case Signal(sem) => sem
    case Signaln(sem, _) => sem
    case Semdelete(sem) => sem
    case Semreset(sem, _) => sem
    case Getbuf(i) => if 0 <= i < |s.pools| then s.pools[i].sem else -1
    case Nbgetbuf(i) => if 0 <= i < |s.pools| then s.pools[i].sem else -1
    case Freebuf(i, _) => if 0 <= i < |s.pools| then s.pools[i].sem else -1
    case _ => -1
  }

  function Min(a: nat, b: nat): nat { if a < b then a else b }

  /** Signals that one step delivers to `sem`. */
  function Signals(s: KState, op: Op, sem: int): nat {
    if Target(s, op) != sem then 0
    else if op.Signal? || op.Freebuf? then 1
    else if op.Signaln? then Pos(op.count)
    else 0
  }

  /** Waits on `sem` that one step lets through: at once, or by releasing a waiter. */
  function Passes(s: KState, op: Op, sem: int): nat
    requires 0 <= sem < NSEM
  {
    var n := s.sems[sem].count;
    if Target(s, op) != sem then 0
    else if op.WaitFor? || op.Getbuf? || op.Nbgetbuf? then (if n > 0 then 1 else 0)
    else Min(Signals(s, op, sem), Pos(-n))
  }

  predicate Resets(s: KState, op: Op, sem: int) { (op.Semdelete? || op.Semreset?) && op.sem == sem }

  lemma {:induction false} SignalManyCount(s: KState, sem: int, n: nat)
    requires 0 <= sem < NSEM
    ensures SignalMany(s, sem, n).sems == s.sems[sem := s.sems[sem].(count := s.sems[sem].count + n)]
    decreases n
  {
    if n > 0 {
      SignalManyCount(SignalOne(s, sem), sem, n - 1);
    }
  }

  lemma {:induction false} WakeLoopSems(s: KState)
    ensures WakeLoop(s).sems == s.sems && WakeLoop(s).conts == s.conts && WakeLoop(s).pools == s.pools
    decreases |s.lists[SLEEPQ]|
  {
    var l := s.lists[SLEEPQ];
    if !(l == [] || !(0 <= l[0] < NPROC) || s.keys[l[0]] > 0) {
      WakeLoopSems(ReleaseFirst(s, SLEEPQ));
    }
  }

  /** The victim whose table entry a step frees, or -1. */
  function Victim(s: KState, op: Op): int
    requires CurrInRange(s)
  {
    if op.Finish? && s.conts[s.currpid].InKill? then s.conts[s.currpid].pid else -1
  }

  /** What one step adds to the count of a semaphore it does not reset. */
  function CountChange(s: KState, op: Op, sem: int): int
    requires CurrInRange(s) && 0 <= sem < NSEM
  {
    var v := Victim(s, op);
    if op.Finish? then
      if 0 <= v < NPROC && s.procs[v].state.Wait? && s.procs[v].sem == sem then 1 else 0
    else if Target(s, op) != sem then 0
    else if op.WaitFor? || op.Getbuf? || (op.Nbgetbuf? && s.sems[sem].count > 0) then -1
    else Signals(s, op, sem)
  }

  /** Operations that leave the whole semaphore table alone. */
  lemma QuietStep(s: KState, op: Op)
    requires CurrInRange(s)
    requires op.Yield? || op.Create? || op.Resume? || op.Suspend? || op.Sleepms? || op.Start? || op.Stop?
    ensures Step(s, op).sems == s.sems
  {
  }

  lemma QuietMessageStep(s: KState, op: Op)
    requires CurrInRange(s)
    requires op.Send? || op.Receive? || op.Recvclr? || op.Recvtime? || op.Kill?
    ensures Step(s, op).sems == s.sems
  {
  }

  lemma QuietTick(s: KState)
    requires CurrInRange(s)
    ensures Step(s, Tick).sems == s.sems
  {
    WakeLoopSems(DecFirst(SetCont(s, s.currpid, InTick)));
  }

  lemma WaitSignalStep(s: KState, op: Op, sem: int)
    requires CurrInRange(s) && 0 <= sem < NSEM && s.sems[sem].used
    requires op.WaitFor? || op.Signal?
    ensures Step(s, op).sems[sem] == s.sems[sem].(count := s.sems[sem].count + CountChange(s, op, sem))
  {
  }

  lemma SyncStep(s: KState, op: Op, sem: int)
    requires CurrInRange(s) && 0 <= sem < NSEM && s.sems[sem].used && !Resets(s, op, sem)
    requires op.Signaln? || op.Semdelete? || op.Semreset?
    ensures Step(s, op).sems[sem] == s.sems[sem].(count := s.sems[sem].count + CountChange(s, op, sem))
  {
    if !BadSem(s, op.sem) {
      match op
      case Signaln(k, n) => if n >= 0 { SignalManyCount(s, k, n); }
      case Semdelete(k) => ReleaseAllSems(s, k);
      case Semreset(k, n) => ReleaseAllSems(s, k);
    }
  }

  lemma PoolStep(s: KState, op: Op, sem: int)
    requires CurrInRange(s) && 0 <= sem < NSEM && s.sems[sem].used
    requires op.Getbuf? || op.Nbgetbuf? || op.Freebuf?
    ensures Step(s, op).sems[sem] == s.sems[sem].(count := s.sems[sem].count + CountChange(s, op, sem))
  {
    hide Resched, ReleaseFirst;
    if 0 <= op.pool < |s.pools| {
      var s1 := SetCont(s, s.currpid, InGetbuf(op.pool));
      WaitSignalStep(s1, WaitFor(s.pools[op.pool].sem), sem);
      if op.Freebuf? {
        var b := s.pools[op.pool];
        WaitSignalStep(s.(pools := s.pools[op.pool := Pushed(b, op.buf)]), Signal(b.sem), sem);
      }
    }
  }

  lemma KillStep(s: KState, p: int, sem: int)
    requires CurrInRange(s) && 0 <= p < NPROC && 0 <= sem < NSEM
    requires s.procs[p].state.Wait? ==> 0 <= s.procs[p].sem < NSEM
    ensures KillRest(s, p).sems[sem] == s.sems[sem].(count := s.sems[sem].count
              + if s.procs[p].state.Wait? && s.procs[p].sem == sem then 1 else 0)
  {
    hide Resched, SetFree, Remove, W32, IndexOf;
  }

  lemma FinishStep(s: KState, sem: int)
    requires Inv(s) && 0 <= sem < NSEM
    ensures Step(s, Finish).sems[sem] == s.sems[sem].(count := s.sems[sem].count + CountChange(s, Finish, sem))
  {
    var c := s.conts[s.currpid];
    if c.InKill? {
      assert ContFits(s.procs[s.currpid], c, s.pools);
      AtHome(s, c.pid);
      KillStep(SetCont(s, s.currpid, NoCont), c.pid, sem);
    }
  }

  /** How one step changes the entry of a semaphore in use that it does not reset. */
  lemma SemEntryStep(s: KState, op: Op, sem: int)
    requires Inv(s) && 0 <= sem < NSEM && s.sems[sem].used && !Resets(s, op, sem)
    ensures Step(s, op).sems[sem] == s.sems[sem].(count := s.sems[sem].count + CountChange(s, op, sem))
  {
    if op.Finish? {
      FinishStep(s, sem);
    } else if op.Getbuf? || op.Nbgetbuf? || op.Freebuf? {
      PoolStep(s, op, sem);
    } else if op.WaitFor? || op.Signal? {
      WaitSignalStep(s, op, sem);
    } else if op.Signaln? || op.Semdelete? || op.Semreset? {
      SyncStep(s, op, sem);
    } else if op.Send? || op.Receive? || op.Recvclr? || op.Recvtime? || op.Kill? {
      QuietMessageStep(s, op);
    } else if op.Tick? {
      QuietTick(s);
    } else if !op.Semcreate? && !op.Mkbufpool? {
      QuietStep(s, op);
    }
  }

  function AllSignals(s: KState, ops: seq<Op>, sem: int): nat
    requires CurrInRange(s)
    decreases |ops|
  {
    if ops == [] then 0
    else
      var t := Step(s, ops[0]);
      Signals(s, ops[0], sem) + (if CurrInRange(t) then AllSignals(t, ops[1..], sem) else 0)
  }

  function AllPasses(s: KState, ops: seq<Op>, sem: int): nat
    requires CurrInRange(s) && 0 <= sem < NSEM
    decreases |ops|
  {
    if ops == [] then 0
    else
      var t := Step(s, ops[0]);
      Passes(s, ops[0], sem) + (if CurrInRange(t) then AllPasses(t, ops[1..], sem) else 0)
  }

  /** Over any run that does not reset the semaphore, the waits let through are exactly the
      initial count plus the signals, less what is still left in the count. */
  lemma {:induction false} SemaphoreConservation(s: KState, ops: seq<Op>, sem: int)
    requires Inv(s) && Legal(s, ops) && 0 <= sem < NSEM && s.sems[sem].used
    requires forall i :: 0 <= i < |ops| ==> !Resets(s, ops[i], sem)
    ensures Exec(s, ops).sems[sem].used
    ensures AllPasses(s, ops, sem) + Pos(Exec(s, ops).sems[sem].count)
         == Pos(s.sems[sem].count) + AllSignals(s, ops, sem)
    decreases |ops|
  {
    if ops != [] {
      var t := Step(s, ops[0]);
      StepInv(s, ops[0]);
      SemEntryStep(s, ops[0], sem);
      PassStep(s, ops[0], sem);
      forall i | 0 <= i < |ops[1..]|
        ensures !Resets(t, ops[1..][i], sem)
      {
        assert ops[1..][i] == ops[i + 1];
      }
      SemaphoreConservation(t, ops[1..], sem);
    }
  }

  lemma PassStep(s: KState, op: Op, sem: int)
    requires Inv(s) && Enabled(s, op) && 0 <= sem < NSEM && s.sems[sem].used && !Resets(s, op, sem)
    ensures Passes(s, op, sem) + Pos(Step(s, op).sems[sem].count) == Pos(s.sems[sem].count) + Signals(s, op, sem)
  {
    SemEntryStep(s, op, sem);
    var v := Victim(s, op);
    if 0 <= v < NPROC && s.procs[v].state.Wait? && s.procs[v].sem == sem {
      AtHome(s, v);
      assert |s.lists[sem]| > 0;
    }
  }
}
