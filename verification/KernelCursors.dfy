/** The cursors of the two cyclic searches and the deferral counter after every step. */
module KernelCursors {
  import opened KernelState
  import opened KernelSteps
  import opened KernelSafety
  import opened KernelFacts
  import opened KernelShape
  import opened KernelSlice
  import opened KernelTables

  predicate SameCursors(s: KState, t: KState) { t.nextpid == s.nextpid && t.nextsem == s.nextsem }

  /** START and STOP count nesting; a STOP without a START is refused. */
  function NestingAfter(s: KState, op: Op): int {
    if op.Start? then s.ndefers + 1 else if op.Stop? && s.ndefers > 0 then s.ndefers - 1 else s.ndefers
  }

  lemma ReschedCursors(s: KState)
    requires CurrInRange(s)
    ensures SameCursors(s, Resched(s)) && Resched(s).ndefers == s.ndefers
  {
    hide KeyPos, InsertAt;
  }

  lemma FinishCursors(s: KState)
    requires CurrInRange(s)
    ensures SameCursors(s, FinishEffect(s).state) && FinishEffect(s).state.ndefers == s.ndefers
  {
    hide Resched, Remove, W32, SetFree;
  }

  lemma EffectCursors(s: KState, op: Op)
    requires CurrInRange(s) && !op.Create? && !op.Semcreate? && !op.Mkbufpool?
    ensures SameCursors(s, EffectOf(s, op).state) && EffectOf(s, op).state.ndefers == NestingAfter(s, op)
  {
    if op.Signaln? || op.Semdelete? || op.Semreset? {
      SyncSlice(s, op);
    } else if op.Tick? {
      TickSlice(s);
    } else if op.Finish? {
      FinishCursors(s);
    } else if op.WaitFor? || op.Signal? || op.Getbuf? || op.Freebuf? {
      SemSlice(s, op);
    } else if !op.Recvclr? && !op.Start? && !op.Stop? && !op.Nbgetbuf? {
      CallSlice(s, op);
    }
    hide TickEffect, FinishEffect, WaitEffect, SignalEffect, SendEffect, FreebufEffect, DelayEffect, ReceiveEffect,
      RecvtimeEffect, SuspendEffect, SignalMany, ReleaseAll, Resched;
  }

  /** A full scan of the process table leaves its cursor where it was, give or take a turn. */
  lemma FullScan(n: nat)
    ensures Round(n, AfterFullScan(n)) == 0
  {
  }

  lemma NoneFree(s: KState)
    ensures (forall p :: 0 <= p < NPROC ==> Alive(s, p)) ==> FindPid(s.procs, s.nextpid, 0).None?
  {
    hide FindPid;
    if forall p :: 0 <= p < NPROC ==> Alive(s, p) {
      assert forall p :: 0 <= p < NPROC ==> !s.procs[p].state.Free? by {
        forall p | 0 <= p < NPROC
          ensures !s.procs[p].state.Free?
        {
          assert Alive(s, p);
        }
      }
      FindPidComplete(s.procs, s.nextpid);
    }
  }

  lemma CreateKeeps(s: KState, stack: bool, prio: int)
    requires CurrInRange(s)
    ensures var t := CreateOp(s, stack, prio);
            t.nextsem == s.nextsem && t.ndefers == s.ndefers && (!stack ==> t.nextpid == s.nextpid)
  {
    hide FindPid, AfterFullScan;
  }

  lemma FilledCursor(s: KState, p: int, prio: int)
    requires 0 <= p < NPROC
    ensures Filled(s, p, prio).nextpid == s.nextpid
  {
  }

  lemma CreateCursors(s: KState, op: Op, q: int)
    requires CurrInRange(s) && op.Create?
    ensures var t := Step(s, op);
            && t.nextsem == s.nextsem && t.ndefers == s.ndefers
            && (op.stack && FirstPid(s, q) ==> t.nextpid == q + 1)
            && (op.stack && (forall p :: 0 <= p < NPROC ==> Alive(s, p)) ==> Round(s.nextpid, t.nextpid) == 0)
            && (!op.stack ==> t.nextpid == s.nextpid)
  {
    hide FindPid, FirstPid, AfterFullScan, Round, CreateOp, Filled, Alive;
    FullScan(s.nextpid);
    NoneFree(s);
    FirstPidFound(s, q);
    CreateCases(s, op.prio);
    CreateKeeps(s, op.stack, op.prio);
    if FirstPid(s, q) { FilledCursor(s.(nextpid := q + 1), q, op.prio); }
  }

  lemma SemCursors(s: KState, op: Op, q: int)
    requires CurrInRange(s) && (op.Semcreate? || op.Mkbufpool?)
    ensures var t := Step(s, op);
            && t.nextpid == s.nextpid && t.ndefers == s.ndefers
            && (FirstSem(s, q) && (MakesPool(s, op) || (op.Semcreate? && op.count >= 0)) ==>
                  t.nextsem == if q == NSEM - 1 then 0 else q + 1)
            && (!MakesPool(s, op) && !(op.Semcreate? && op.count >= 0) ==> t.nextsem == s.nextsem)
  {
    FirstSemFound(s, q);
    hide FindSem, FirstSem, PoolBufs;
  }

  /** The searches for a free entry start behind the slot found last, also when `create` then
      refused the priority; no other call moves them or the nesting count. */
  lemma CursorStep(s: KState, op: Op, q: int)
    requires Inv(s) && Enabled(s, op)
    ensures var t := Step(s, op);
            && t.ndefers == NestingAfter(s, op)
            && (op.Create? && op.stack && FirstPid(s, q) ==> t.nextpid == q + 1)
            && (op.Create? && op.stack && (forall p :: 0 <= p < NPROC ==> Alive(s, p)) ==>
                  Round(s.nextpid, t.nextpid) == 0)
            && (!op.Create? || !op.stack ==> t.nextpid == s.nextpid)
            && (FirstSem(s, q) && (MakesPool(s, op) || (op.Semcreate? && op.count >= 0)) ==>
                  t.nextsem == if q == NSEM - 1 then 0 else q + 1)
            && (!MakesPool(s, op) && !(op.Semcreate? && op.count >= 0) ==> t.nextsem == s.nextsem)
  {
    InvRuns(s);
    hide Inv, Enabled, Step, FirstPid, FirstSem, Round, EffectOf, MakesPool;
    if op.Create? {
      CreateCursors(s, op, q);
    } else if op.Semcreate? || op.Mkbufpool? {
      SemCursors(s, op, q);
    } else {
      StepShape(s, op);
      EffectCursors(s, op);
      if EffectOf(s, op).resched { ReschedCursors(EffectOf(s, op).state); }
    }
  }
}
