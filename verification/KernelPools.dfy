/**
 Buffer pools across interleavings: a granted `getbuf` always finds a buffer, and no buffer
 disappears or is handed out twice.
 */
module KernelPools {
  import opened KernelState
  import opened KernelInvariant
  import opened KernelSteps
  import opened KernelSafety
  import opened KernelRuns

  /** In every reachable state the free list of each pool holds one buffer for every unit of
      the count, one for every waiter granted but not yet resumed, and one for every such
      process that was killed; so the pop of `getbuf` never meets an empty list. */
  lemma ReachablePools(ops: seq<Op>)
    requires Legal(Boot(), ops)
    ensures var s := Exec(Boot(), ops);
            && CurrInRange(s)
            && (forall i :: 0 <= i < |s.pools| ==> 0 <= s.pools[i].sem < NSEM && PoolBalance(s, i))
            && (s.conts[s.currpid].InGetbuf? ==>
                  var i := s.conts[s.currpid].pool; 0 <= i < |s.pools| && s.pools[i].free != [])
  {
    ReachableInv(ops);
    var s := Exec(Boot(), ops);
    InvRuns(s);
    hide CoreX, Running, SemOK, ContOK, Exec, Boot;
    if s.conts[s.currpid].InGetbuf? {
      TakeBufInv(s, s.conts[s.currpid].pool);
    }
  }

  /** The buffers of a pool, free or handed out. */
  function Buffers(b: Pool): set<int> { (set x | x in b.free) + b.lent }

  ghost predicate SameBuffers(s: KState, t: KState) {
    && |s.pools| <= |t.pools|
    && (forall i :: 0 <= i < |s.pools| ==>
          t.pools[i].sem == s.pools[i].sem && Buffers(t.pools[i]) == Buffers(s.pools[i]))
  }

  lemma QuietPools(s: KState, op: Op)
    requires CurrInRange(s)
    requires op.Yield? || op.Create? || op.Resume? || op.Suspend? || op.Sleepms? || op.Start? || op.Stop?
        || op.Semcreate? || op.Tick?
    ensures Step(s, op).pools == s.pools
  {
    hide Resched, FindPid, FindSem, KeyPos, InsertD, WakeLoop;
    if op.Sleepms? { InsertDPools(s, s.currpid, W32(op.delay)); }
  }

  lemma InsertDPools(s: KState, p: int, key: int)
    requires 0 <= p < NPROC
    ensures InsertD(s, p, key).pools == s.pools && InsertD(s, p, key).currpid == s.currpid
  {
  }

  lemma SyncPools(s: KState, op: Op)
    requires CurrInRange(s)
    requires op.WaitFor? || op.Signal? || op.Signaln? || op.Semdelete? || op.Semreset? || op.Getbuf? || op.Nbgetbuf?
    ensures Step(s, op).pools == s.pools
  {
    hide Resched, SignalMany, ReleaseAll, KeyPos;
  }

  lemma MessagePools(s: KState, op: Op)
    requires CurrInRange(s)
    requires op.Send? || op.Receive? || op.Recvclr? || op.Recvtime? || op.Kill?
    ensures Step(s, op).pools == s.pools
  {
    hide Resched, KeyPos, DeltaPos, W32, Remove;
  }

  lemma SignalPools(s: KState, sem: int)
    requires CurrInRange(s)
    ensures SignalOp(s, sem).pools == s.pools
  {
    hide Resched, KeyPos;
  }

  lemma FreebufPools(s: KState, i: int, buf: int)
    requires Enabled(s, Freebuf(i, buf))
    ensures SameBuffers(s, FreebufOp(s, i, buf))
  {
    if 0 <= i < |s.pools| {
      var b := s.pools[i];
      var b' := Pushed(b, buf);
      SignalPools(s.(pools := s.pools[i := b']), b.sem);
      assert Buffers(b') == Buffers(b);
    }
    hide SignalOp;
  }

  lemma TakePools(s: KState, i: int)
    ensures SameBuffers(s, TakeBuf(s, i))
  {
    if 0 <= i < |s.pools| && s.pools[i].free != [] {
      var b := s.pools[i];
      var b' := TakeBuf(s, i).pools[i];
      assert b.free == [b.free[0]] + b.free[1..];
      assert Buffers(b') == Buffers(b);
    }
  }

  lemma SetFreePools(s: KState, p: int)
    requires 0 <= p < NPROC
    ensures SameBuffers(s, SetFree(s, p))
  {
  }

  lemma KillPools(s: KState, p: int)
    requires CurrInRange(s) && 0 <= p < NPROC
    ensures SameBuffers(s, KillRest(s, p))
  {
    hide Resched, Remove, W32, SetFree, Buffers;
    var pr := s.procs[p];
    match pr.state
    case Sleep => SetFreePools(Unsleep(s, p), p);
    case RecTim => SetFreePools(Unsleep(s, p), p);
    case Wait =>
      if 0 <= pr.sem < NSEM { SetFreePools(Unlink(SetCount(s, pr.sem, s.sems[pr.sem].count + 1), p, pr.sem), p); }
    case Ready => SetFreePools(Unlink(s, p, READYQ), p);
    case _ => SetFreePools(s, p);
  }

  lemma FinishPools(s: KState)
    requires CurrInRange(s)
    ensures SameBuffers(s, FinishOp(s))
  {
    var c := s.conts[s.currpid];
    var s1 := SetCont(s, s.currpid, NoCont);
    if c.InKill? && 0 <= c.pid < NPROC {
      KillPools(s1, c.pid);
    } else if c.InGetbuf? {
      TakePools(s1, c.pool);
    }
    hide Resched, KillRest, TakeBuf;
  }

  lemma BuffersStep(s: KState, op: Op)
    requires Enabled(s, op)
    ensures SameBuffers(s, Step(s, op))
  {
    if op.Finish? {
      FinishPools(s);
    } else if op.Freebuf? {
      FreebufPools(s, op.pool, op.buf);
    } else if op.Send? || op.Receive? || op.Recvclr? || op.Recvtime? || op.Kill? {
      MessagePools(s, op);
    } else if op.WaitFor? || op.Signal? || op.Signaln? || op.Semdelete? || op.Semreset? || op.Getbuf? || op.Nbgetbuf? {
      SyncPools(s, op);
    } else if !op.Mkbufpool? {
      QuietPools(s, op);
    }
    hide FinishOp, FreebufOp, SendOp, KillOp, ReceiveOp, RecvtimeOp, WaitOp, SignalOp, SignalnOp, SemdeleteOp,
      SemresetOp, GetbufOp, NbgetbufOp, Resched, TickOp, CreateOp, ResumeOp, SuspendOp, SleepmsOp, DeferStop,
      SemcreateOp, FindSem, MayBlock, Private;
  }

  /** Over any run a pool keeps exactly the buffers it was made with. */
  lemma {:induction false} BufferConservation(s: KState, ops: seq<Op>, i: int)
    requires Legal(s, ops) && 0 <= i < |s.pools|
    ensures i < |Exec(s, ops).pools| && Buffers(Exec(s, ops).pools[i]) == Buffers(s.pools[i])
    decreases |ops|
  {
    hide Step, Buffers, MayBlock;
    if ops != [] {
      BuffersStep(s, ops[0]);
      BufferConservation(Step(s, ops[0]), ops[1..], i);
    }
  }

  // ---- when the balance is exact ---------------------------------------------------

  /** The step frees a process whose wait on pool `i` was granted and not yet used. */
  predicate LosesBuffer(s: KState, op: Op, i: int)
    requires CurrInRange(s)
  {
    var v := Victim(s, op);
    0 <= v < NPROC && 0 <= i < |s.pools| && Granted(s.procs[v], s.conts[v], i)
  }

  function LostOf(s: KState, i: int): nat { if 0 <= i < |s.pools| then s.pools[i].lost else 0 }

  lemma SetFreeLost(s: KState, p: int, i: int)
    requires 0 <= p < NPROC
    ensures LostOf(SetFree(s, p), i) ==
              LostOf(s, i) + if 0 <= i < |s.pools| && Granted(s.procs[p], s.conts[p], i) then 1 else 0
  {
  }

  lemma KillLost(s: KState, p: int, i: int)
    requires CurrInRange(s) && 0 <= p < NPROC && (s.procs[p].state.Wait? ==> 0 <= s.procs[p].sem < NSEM)
    ensures LostOf(KillRest(s, p), i) ==
              LostOf(s, i) + if 0 <= i < |s.pools| && Granted(s.procs[p], s.conts[p], i) then 1 else 0
  {
    hide Resched, Remove, W32, SetFree, LostOf;
    var pr := s.procs[p];
    match pr.state
    case Curr =>
      SetFreeLost(s, p, i);
      SameLost(SetFree(s, p), Resched(SetFree(s, p)), i);
    case Sleep => SetFreeLost(Unsleep(s, p), p, i); SameLost(s, Unsleep(s, p), i);
    case RecTim => SetFreeLost(Unsleep(s, p), p, i); SameLost(s, Unsleep(s, p), i);
    case Wait =>
      var m := Unlink(SetCount(s, pr.sem, s.sems[pr.sem].count + 1), p, pr.sem);
      SetFreeLost(m, p, i);
      SameLost(s, m, i);
    case Ready => SetFreeLost(Unlink(s, p, READYQ), p, i); SameLost(s, Unlink(s, p, READYQ), i);
    case _ => SetFreeLost(s, p, i);
  }

  lemma SameLost(s: KState, t: KState, i: int)
    requires t.pools == s.pools
    ensures LostOf(t, i) == LostOf(s, i)
  {
  }

  lemma FinishLost(s: KState, i: int)
    requires Inv(s)
    ensures CurrInRange(s) && LostOf(FinishOp(s), i) == LostOf(s, i) + if LosesBuffer(s, Finish, i) then 1 else 0
  {
    InvRuns(s);
    Fits(s, s.currpid);
    var c := s.conts[s.currpid];
    var s1 := SetCont(s, s.currpid, NoCont);
    if c.InKill? {
      AtHome(s, c.pid);
      hide Inv, KillRest;
      KillLost(s1, c.pid, i);
    } else {
      hide Inv, Resched;
    }
  }

  lemma LostStep(s: KState, op: Op, i: int)
    requires Inv(s) && Enabled(s, op)
    ensures CurrInRange(s) && LostOf(Step(s, op), i) == LostOf(s, i) + if LosesBuffer(s, op, i) then 1 else 0
  {
    InvRuns(s);
    hide Inv, Private, MayBlock;
    if op.Finish? {
      FinishLost(s, i);
    } else if op.Send? || op.Receive? || op.Recvclr? || op.Recvtime? || op.Kill? {
      MessagePools(s, op);
    } else if op.WaitFor? || op.Signal? || op.Signaln? || op.Semdelete? || op.Semreset? || op.Getbuf? || op.Nbgetbuf? {
      SyncPools(s, op);
    } else if op.Freebuf? || op.Mkbufpool? {
      PoolLost(s, op, i);
    } else {
      QuietPools(s, op);
    }
    hide Step, Enabled;
  }

  lemma PoolLost(s: KState, op: Op, i: int)
    requires CurrInRange(s) && (op.Freebuf? || op.Mkbufpool?)
    ensures LostOf(Step(s, op), i) == LostOf(s, i)
  {
    hide FindSem, PoolBufs;
    if op.Freebuf? && 0 <= op.pool < |s.pools| {
      var b := s.pools[op.pool];
      SignalPools(s.(pools := s.pools[op.pool := Pushed(b, op.buf)]), b.sem);
      hide SignalOp;
    }
  }

  /** The kills of a run that lose a buffer of pool `i`. */
  ghost function Losses(s: KState, ops: seq<Op>, i: int): nat
    requires Legal(s, ops)
    decreases |ops|
  {
    if ops == [] then 0 else (if LosesBuffer(s, ops[0], i) then 1 else 0) + Losses(Step(s, ops[0]), ops[1..], i)
  }

  lemma {:induction false} LostRun(s: KState, ops: seq<Op>, i: int)
    requires Inv(s) && Legal(s, ops)
    ensures LostOf(Exec(s, ops), i) == LostOf(s, i) + Losses(s, ops, i)
    decreases |ops|
  {
    hide Inv, Step, LosesBuffer, LostOf, MayBlock;
    if ops != [] {
      LostStep(s, ops[0], i);
      StepInv(s, ops[0]);
      LostRun(Step(s, ops[0]), ops[1..], i);
    }
  }

  /** From boot: the free list of a pool has exactly one buffer per unit of the count and per
      granted wait if and only if no process was killed between grant and use. */
  lemma ExactBalance(ops: seq<Op>, i: int)
    requires Legal(Boot(), ops) && 0 <= i < |Exec(Boot(), ops).pools|
    ensures var s := Exec(Boot(), ops);
            && 0 <= s.pools[i].sem < NSEM
            && |s.pools[i].free| ==
                 Pos(s.sems[s.pools[i].sem].count) + |GrantedSet(s.procs, s.conts, i)| + Losses(Boot(), ops, i)
            && (|s.pools[i].free| == Pos(s.sems[s.pools[i].sem].count) + |GrantedSet(s.procs, s.conts, i)| <==>
                  Losses(Boot(), ops, i) == 0)
  {
    ReachablePools(ops);
    BootInv();
    LostRun(Boot(), ops, i);
    assert LostOf(Boot(), i) == 0;
    assert PoolBalance(Exec(Boot(), ops), i);
    hide Boot, Exec, GrantedSet, Losses, Inv;
  }
}
