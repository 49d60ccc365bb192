/**
 Every system call, clock tick and continuation keeps the kernel invariant.

 `Enabled` is what the kernel demands of its callers: the null process never blocks,
 nobody blocks while rescheduling is deferred, the semaphore of a buffer pool is touched
 only by the pool, and only a buffer that was handed out is freed.
 */
module KernelSteps {
  import opened KernelState
  import opened KernelInvariant

  // ---- the remaining parts of the invariant ----------------------------------------

  /** A semaphore in use has one waiter per unit its count is below zero, a free one has none. */
  ghost predicate SemOK(s: KState) {
    forall k :: 0 <= k < NSEM ==> |s.lists[k]| == if s.sems[k].used then Pos(-s.sems[k].count) else 0
  }

  /** A pending continuation matches the state of its process. */
  ghost predicate ContFits(pr: Proc, c: Cont, pools: seq<Pool>) {
    && (pr.state.Recv? ==> c.InReceive? && !pr.hasmsg)
    && (pr.state.RecTim? ==> c.InRecvtime? && !pr.hasmsg)
    && (c.InReceive? && !pr.state.Recv? ==> pr.hasmsg)
    && (pr.state.Free? || pr.state.Sleep? ==> c.NoCont?)
    && (pr.state.Wait? ==> c.NoCont? || c.InGetbuf?)
    && (pr.state.Wait? && c.NoCont? ==> forall i :: 0 <= i < |pools| ==> pools[i].sem != pr.sem)
    && (c.InKill? ==> 0 < c.pid < NPROC)
    && (c.InGetbuf? ==> 0 <= c.pool < |pools| && (pr.state.Wait? ==> pr.sem == pools[c.pool].sem))
  }

  ghost predicate ContOK(s: KState) {
    forall p {:trigger ContFits(s.procs[p], s.conts[p], s.pools)} :: 0 <= p < NPROC ==>
        ContFits(s.procs[p], s.conts[p], s.pools)
  }

  /** The processes whose wait on pool `i` has been granted but that have not run since. */
  ghost function GrantedSet(procs: seq<Proc>, conts: seq<Cont>, i: int): set<int>
    requires |procs| == |conts| == NPROC
  {
    set p | 0 <= p < NPROC && Granted(procs[p], conts[p], i)
  }

  /** The free list covers the count, every granted wait, and the buffers a kill left behind. */
  ghost predicate PoolBalance(s: KState, i: int)
    requires 0 <= i < |s.pools| && 0 <= s.pools[i].sem < NSEM
  {
    |s.pools[i].free| == Pos(s.sems[s.pools[i].sem].count) + |GrantedSet(s.procs, s.conts, i)| + s.pools[i].lost
  }

  ghost predicate PoolShape(b: Pool) {
    NoDup(b.free) && (forall x :: x in b.free ==> x !in b.lent)
  }

  ghost predicate PoolsOK(s: KState) {
    && (forall i :: 0 <= i < |s.pools| ==>
          0 <= s.pools[i].sem < NSEM && s.sems[s.pools[i].sem].used && PoolShape(s.pools[i]) && PoolBalance(s, i))
    && (forall i, j :: 0 <= i < j < |s.pools| ==> s.pools[i].sem != s.pools[j].sem)
  }

  ghost predicate Rest(s: KState) { SemOK(s) && ContOK(s) && PoolsOK(s) }

  ghost predicate Inv(s: KState) { Core(s) && Running(s) && Rest(s) }

  lemma Fits(s: KState, p: int)
    requires Rest(s) && 0 <= p < NPROC
    ensures ContFits(s.procs[p], s.conts[p], s.pools)
  {
  }

  // ---- what callers owe ------------------------------------------------------------

  predicate MayBlock(s: KState, op: Op)
    requires CurrInRange(s)
  {
    match op
    case WaitFor(sem) => !BadSem(s, sem) && s.sems[sem].count <= 0
    case Sleepms(delay) => delay != 0
    case Receive => !s.procs[s.currpid].hasmsg
    case Recvtime(maxwait) => maxwait >= 0 && !s.procs[s.currpid].hasmsg
    case Getbuf(i) => 0 <= i < |s.pools| && !BadSem(s, s.pools[i].sem) && s.sems[s.pools[i].sem].count <= 0
    case Suspend(pid) => pid == s.currpid && pid != NULLPROC
    case Finish => s.conts[s.currpid] == InKill(s.currpid)
    case _ => false
  }

  predicate Private(s: KState, sem: int) { exists i :: 0 <= i < |s.pools| && s.pools[i].sem == sem }

  predicate Enabled(s: KState, op: Op) {
    && CurrInRange(s)
    && (op.Finish? <==> !s.conts[s.currpid].NoCont?)
    && (MayBlock(s, op) ==> s.currpid != NULLPROC && s.ndefers == 0)
    && (op.WaitFor? || op.Signal? || op.Signaln? || op.Semdelete? || op.Semreset? ==> !Private(s, op.sem))
    && (op.Freebuf? && 0 <= op.pool < |s.pools| ==> op.buf in s.pools[op.pool].lent)
  }

  // ---- frames ----------------------------------------------------------------------

  lemma GrantedChange(s: KState, t: KState, p: int, i: int)
    requires 0 <= p < NPROC
    requires forall q :: 0 <= q < NPROC && q != p ==>
               (Granted(t.procs[q], t.conts[q], i) <==> Granted(s.procs[q], s.conts[q], i))
    ensures |GrantedSet(t.procs, t.conts, i)| + (if Granted(s.procs[p], s.conts[p], i) then 1 else 0)
         == |GrantedSet(s.procs, s.conts, i)| + (if Granted(t.procs[p], t.conts[p], i) then 1 else 0)
  {
    var a, b := GrantedSet(s.procs, s.conts, i), GrantedSet(t.procs, t.conts, i);
    SetChange(a, b, p);
  }

  lemma SetChange(a: set<int>, b: set<int>, p: int)
    requires a - {p} == b - {p}
    ensures |b| + (if p in a then 1 else 0) == |a| + (if p in b then 1 else 0)
  {
    assert a == (a - {p}) + (if p in a then {p} else {});
    assert b == (b - {p}) + (if p in b then {p} else {});
  }

  /** Nothing outside the scheduling part changed, as far as pools and semaphores can tell. */
  ghost predicate SameRest(s: KState, t: KState) {
    && t.sems == s.sems && t.pools == s.pools
    && (forall k :: 0 <= k < NSEM ==> t.lists[k] == s.lists[k])
    && (forall q, i :: 0 <= q < NPROC ==> (Granted(t.procs[q], t.conts[q], i) <==> Granted(s.procs[q], s.conts[q], i)))
  }

  lemma RestFrame(s: KState, t: KState)
    requires Rest(s) && ContOK(t) && SameRest(s, t)
    ensures Rest(t)
  {
    forall i | 0 <= i < |s.pools|
      ensures PoolBalance(t, i)
    {
      assert PoolBalance(s, i);
      GrantedChange(s, t, 0, i);
    }
  }

  /** Only process `p` changed, and its grants did not. */
  lemma RestMove(s: KState, t: KState, p: int)
    requires Rest(s) && 0 <= p < NPROC
    requires t.sems == s.sems && t.pools == s.pools && (forall k :: 0 <= k < NSEM ==> t.lists[k] == s.lists[k])
    requires t.procs == s.procs[p := t.procs[p]] && t.conts == s.conts[p := t.conts[p]]
    requires ContFits(t.procs[p], t.conts[p], t.pools)
    requires forall i :: Granted(t.procs[p], t.conts[p], i) <==> Granted(s.procs[p], s.conts[p], i)
    ensures Rest(t)
  {
    RestFrame(s, t);
  }

  lemma ReschedRest(s: KState, t: KState)
    requires Core(s) && Rest(s) && s.ndefers >= 0 && t == Resched(s)
    requires s.ndefers > 0 ==> s.procs[s.currpid].state.Curr?
    ensures Rest(t)
  {
    ReschedFrame(s);
    SameRunningRest(s, t);
  }

  lemma SameRunningRest(s: KState, t: KState)
    requires Rest(s) && t.sems == s.sems && t.conts == s.conts && t.pools == s.pools
    requires forall k :: 0 <= k < NSEM ==> t.lists[k] == s.lists[k]
    requires forall q :: 0 <= q < NPROC ==> SameButRunning(s.procs[q], t.procs[q])
    ensures Rest(t)
  {
    forall q | 0 <= q < NPROC
      ensures ContFits(t.procs[q], t.conts[q], t.pools)
    {
      assert ContFits(s.procs[q], s.conts[q], s.pools);
    }
    RestFrame(s, t);
  }

  lemma ReschedInv(s: KState)
    requires Core(s) && Rest(s) && s.ndefers >= 0
    requires s.ndefers > 0 ==> s.procs[s.currpid].state.Curr?
    ensures Inv(Resched(s))
  {
    ReschedCore(s);
    ReschedRest(s, Resched(s));
  }

  lemma BootInv()
    ensures Inv(Boot())
  {
    var s := Boot();
    assert Placed(s, -1);
  }
}
