/**
 Time slices.  Whoever gets the CPU gets a whole slice, every tick it completes takes one off,
 and nothing else touches the count: over any run it is QUANTUM less the ticks completed since
 the CPU was last handed on or the slice restarted.
 */
module KernelSlice {
  import opened KernelState
  import opened KernelInvariant
  import opened KernelSteps
  import opened KernelSafety
  import opened KernelRuns
  import opened KernelShape

  predicate InSlice(s: KState) { 1 <= s.preempt <= QUANTUM }

  /** The running process completes a clock tick. */
  predicate Ticks(s: KState, op: Op)
    requires CurrInRange(s)
  {
    op.Finish? && s.conts[s.currpid].InTick?
  }

  predicate SameCounters(s: KState, t: KState) {
    t.preempt == s.preempt && t.nextpid == s.nextpid && t.nextsem == s.nextsem && t.ndefers == s.ndefers
  }

  // ---- the effect of a call on the count -------------------------------------------

  lemma {:induction false} ReleaseSlice(s: KState, k: int)
    requires 0 <= k < NLISTS && k != READYQ
    ensures SameCounters(s, ReleaseAll(s, k))
    decreases |s.lists[k]|
  {
    hide KeyPos, InsertAt;
    if !(s.lists[k] == [] || !(0 <= s.lists[k][0] < NPROC)) { ReleaseSlice(ReleaseFirst(s, k), k); }
  }

  lemma {:induction false} SignalSlice(s: KState, k: int, n: nat)
    requires 0 <= k < NSEM
    ensures SameCounters(s, SignalMany(s, k, n))
    decreases n
  {
    hide KeyPos, InsertAt;
    if n > 0 { SignalSlice(SignalOne(s, k), k, n - 1); }
  }

  lemma {:induction false} WakeSlice(s: KState)
    ensures SameCounters(s, WakeLoop(s))
    decreases |s.lists[SLEEPQ]|
  {
    hide KeyPos, InsertAt;
    var l := s.lists[SLEEPQ];
    if !(l == [] || !(0 <= l[0] < NPROC) || s.keys[l[0]] > 0) { WakeSlice(ReleaseFirst(s, SLEEPQ)); }
  }

  lemma SyncSlice(s: KState, op: Op)
    requires CurrInRange(s) && (op.Signaln? || op.Semdelete? || op.Semreset?)
    ensures SameCounters(s, EffectOf(s, op).state) && EffectOf(s, op).state.currpid == s.currpid
  {
    hide ReleaseAll, SignalMany, Resched;
    if !BadSem(s, op.sem) {
      ReleaseSlice(s, op.sem);
      if op.Signaln? && op.count >= 0 { SignalSlice(s, op.sem, op.count); }
    }
  }

  lemma TickSlice(s: KState)
    requires CurrInRange(s)
    ensures SameCounters(s, TickEffect(s).state) && TickEffect(s).state.currpid == s.currpid
  {
    hide WakeLoop, W32, Resched;
    WakeSlice(DecFirst(SetCont(s, s.currpid, InTick)));
  }

  lemma SemSlice(s: KState, op: Op)
    requires CurrInRange(s) && (op.WaitFor? || op.Signal? || op.Getbuf? || op.Freebuf?)
    ensures SameCounters(s, EffectOf(s, op).state) && EffectOf(s, op).state.currpid == s.currpid
  {
    hide Resched, KeyPos, InsertAt;
  }

  lemma CallSlice(s: KState, op: Op)
    requires CurrInRange(s)
    requires op.Yield? || op.Send? || op.Kill? || op.Resume? || op.Suspend? || op.Sleepms? || op.Receive?
          || op.Recvtime?
    ensures SameCounters(s, EffectOf(s, op).state) && EffectOf(s, op).state.currpid == s.currpid
  {
    hide Resched, KeyPos, InsertAt, Remove, W32, DeltaPos;
  }

  lemma TableSlice(s: KState, op: Op)
    requires CurrInRange(s)
    requires op.Semcreate? || op.Create? || op.Recvclr? || op.Start? || op.Stop? || op.Mkbufpool? || op.Nbgetbuf?
    ensures EffectOf(s, op).state.preempt == s.preempt && EffectOf(s, op).state.currpid == s.currpid
  {
    hide Resched, FindPid, FindSem;
  }

  lemma FinishSlice(s: KState)
    requires CurrInRange(s) && InSlice(s)
    ensures FinishEffect(s).state.preempt ==
              if !Ticks(s, Finish) then s.preempt else if s.preempt == 1 then QUANTUM else s.preempt - 1
    ensures FinishEffect(s).state.currpid == s.currpid
  {
    hide Resched, Remove, W32, SetFree;
  }

  /** The effect of a call leaves the count alone, except for completing a tick, and the CPU as well. */
  lemma EffectSlice(s: KState, op: Op)
    requires CurrInRange(s) && InSlice(s)
    ensures EffectOf(s, op).state.preempt ==
              if !Ticks(s, op) then s.preempt else if s.preempt == 1 then QUANTUM else s.preempt - 1
    ensures EffectOf(s, op).state.currpid == s.currpid
  {
    if op.Signaln? || op.Semdelete? || op.Semreset? {
      SyncSlice(s, op);
    } else if op.Tick? {
      TickSlice(s);
    } else if op.Finish? {
      FinishSlice(s);
    } else if op.Semcreate? || op.Create? || op.Recvclr? || op.Start? || op.Stop? || op.Mkbufpool? || op.Nbgetbuf? {
      TableSlice(s, op);
    } else if op.WaitFor? || op.Signal? || op.Getbuf? || op.Freebuf? {
      SemSlice(s, op);
    } else {
      CallSlice(s, op);
    }
    hide TickEffect, FinishEffect, WaitEffect, SignalEffect, SendEffect, FreebufEffect, DelayEffect, ReceiveEffect,
      RecvtimeEffect, SuspendEffect, StopEffect, Step, SignalMany, ReleaseAll;
  }

  // ---- handing the CPU on ----------------------------------------------------------

  /** `resched` restarts the count exactly when it hands the CPU to another process. */
  lemma ReschedSlice(s: KState, m: KState)
    requires MayResched(s, m)
    ensures Resched(m).preempt == if Resched(m).currpid != m.currpid then QUANTUM else m.preempt
  {
    var cur, l := m.currpid, m.lists[READYQ];
    assert cur !in l;
    if m.ndefers == 0 {
      if !m.procs[cur].state.Curr? {
        FirstIsReady(m);
        hide CoreX;
        assert l[0] in l;
      } else if m.procs[cur].prio <= FirstReadyKey(m) {
        Lift(m, cur);
        MakeReadyCore(m, cur);
        FirstIsReady(MakeReady(m, cur));
        assert m.procs[cur].prio >= 0;
        hide CoreX;
        var i := KeyPos(l, m.keys, m.procs[cur].prio);
        assert l != [] && i > 0;
        InsertAtElem(l, i, cur, 0);
        assert l[0] in l;
      }
    }
  }

  /** Every step: a whole slice for whoever gets the CPU; otherwise one less, without wrapping,
      for completing a tick, or a new slice when that was the last. */
  lemma SliceStep(s: KState, op: Op)
    requires Inv(s) && Enabled(s, op) && InSlice(s)
    ensures var t := Step(s, op);
            && InSlice(t)
            && t.preempt == if t.currpid != s.currpid then QUANTUM
                            else if !Ticks(s, op) then s.preempt
                            else if s.preempt == 1 then QUANTUM else s.preempt - 1
  {
    InvRuns(s);
    EffectSlice(s, op);
    StepShape(s, op);
    StepReaches(s, op);
    hide Inv, Enabled, Step, EffectOf, MayResched, Resched;
    if EffectOf(s, op).resched { ReschedSlice(s, EffectOf(s, op).state); }
  }

  /** A step of the clock: the slice goes on, or it is over and the process is rescheduled. */
  lemma SliceTick(s: KState)
    requires CurrInRange(s) && InSlice(s) && s.conts[s.currpid].InTick?
    ensures var s1 := SetCont(s, s.currpid, NoCont);
            FinishOp(s) ==
              if s.preempt == 1 then Resched(s1.(preempt := QUANTUM)) else s1.(preempt := s.preempt - 1)
  {
    hide Resched;
  }

  // ---- whole runs ------------------------------------------------------------------

  /** The ticks completed since the CPU was last handed on or the slice restarted, when `n` were before. */
  ghost function Elapsed(s: KState, ops: seq<Op>, n: nat): nat
    requires Legal(s, ops)
    decreases |ops|
  {
    if ops == [] then n
    else
      var t := Step(s, ops[0]);
      var m := if t.currpid != s.currpid then 0 else if !Ticks(s, ops[0]) then n
               else if n + 1 == QUANTUM then 0 else n + 1;
      Elapsed(t, ops[1..], m)
  }

  lemma {:induction false} SliceRun(s: KState, ops: seq<Op>, n: nat)
    requires Inv(s) && Legal(s, ops) && n < QUANTUM && s.preempt == QUANTUM - n
    ensures Elapsed(s, ops, n) < QUANTUM && Exec(s, ops).preempt == QUANTUM - Elapsed(s, ops, n)
    decreases |ops|
  {
    hide Inv, Step, MayBlock, Enabled;
    if ops != [] {
      InvRuns(s);
      SliceStep(s, ops[0]);
      StepInv(s, ops[0]);
      var t := Step(s, ops[0]);
      SliceRun(t, ops[1..], QUANTUM - t.preempt);
    }
  }

  /** In every reachable state the count is what is left of the running slice, and at least 1. */
  lemma ReachableSlice(ops: seq<Op>)
    requires Legal(Boot(), ops)
    ensures 1 <= Exec(Boot(), ops).preempt <= QUANTUM
    ensures Exec(Boot(), ops).preempt == QUANTUM - Elapsed(Boot(), ops, 0)
  {
    BootInv();
    SliceRun(Boot(), ops, 0);
    hide Exec, Legal, Elapsed;
  }
}
