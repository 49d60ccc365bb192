/** Each operation keeps the invariant; the step theorem is `StepInv`. */
module KernelSafety {
  import opened Wrappers
  import opened KernelState
  import opened KernelInvariant
  import opened KernelSteps

  /** The scheduling part does not read semaphores, continuations, pools or counters. */
  lemma CoreIgnores(s: KState, t: KState, x: int)
    requires CoreX(s, x)
    requires t.procs == s.procs && t.keys == s.keys && t.lists == s.lists && t.currpid == s.currpid
    ensures CoreX(t, x)
  {
  }

  // ---- wait ------------------------------------------------------------------------

  /** The continuation a wait may leave: none on an ordinary semaphore, a pop on a pool's own. */
  ghost predicate WaitCont(s: KState, sem: int, c: Cont) {
    || (c.NoCont? && !Private(s, sem))
    || (c.InGetbuf? && 0 <= c.pool < |s.pools| && s.pools[c.pool].sem == sem)
  }

  lemma WaitPassesInv(s: KState, sem: int, c: Cont)
    requires Inv(s) && s.conts[s.currpid].NoCont? && WaitCont(s, sem, c)
    requires !BadSem(s, sem) && s.sems[sem].count > 0
    ensures Inv(SetCount(SetCont(s, s.currpid, c), sem, s.sems[sem].count - 1))
  {
    var t := SetCount(SetCont(s, s.currpid, c), sem, s.sems[sem].count - 1);
    CoreIgnores(s, t, -1);
    assert ContFits(s.procs[s.currpid], s.conts[s.currpid], s.pools);
    forall i | 0 <= i < |s.pools|
      ensures PoolBalance(t, i)
    {
      assert PoolBalance(s, i);
      GrantedChange(s, t, s.currpid, i);
    }
  }

  lemma WaitBlocksInv(s: KState, sem: int, c: Cont)
    requires Inv(s) && s.conts[s.currpid].NoCont? && WaitCont(s, sem, c)
    requires !BadSem(s, sem) && s.sems[sem].count <= 0 && s.currpid != NULLPROC && s.ndefers == 0
    ensures Inv(WaitUsed(SetCont(s, s.currpid, c), sem))
  {
    var p := s.currpid;
    var s0 := SetCount(SetCont(s, p, c), sem, s.sems[sem].count - 1);
    var t := Enqueue(SetProc(s0, p, s0.procs[p].(state := Wait, sem := sem)), p, sem);
    WaitBlocksCore(s, sem, c);
    WaitBlocksRest(s, sem, c);
    hide CoreX, Rest, Running, Resched;
    ReschedInv(t);
  }

  lemma WaitBlocksCore(s: KState, sem: int, c: Cont)
    requires Core(s) && s.procs[s.currpid].state.Curr? && s.currpid != NULLPROC && 0 <= sem < NSEM
    ensures var s0 := SetCount(SetCont(s, s.currpid, c), sem, s.sems[sem].count - 1);
            Core(Enqueue(SetProc(s0, s0.currpid, s0.procs[s0.currpid].(state := Wait, sem := sem)), s0.currpid, sem))
  {
    var p := s.currpid;
    var s0 := SetCount(SetCont(s, p, c), sem, s.sems[sem].count - 1);
    var pr := s0.procs[p].(state := Wait, sem := sem);
    Lift(s, p);
    hide CoreX;
    CoreIgnores(s, s0, p);
    TransitProc(s0, p, pr);
    EnqueueCore(SetProc(s0, p, pr), p, sem);
  }

  lemma WaitBlocksRest(s: KState, sem: int, c: Cont)
    requires Inv(s) && s.conts[s.currpid].NoCont? && WaitCont(s, sem, c)
    requires !BadSem(s, sem) && s.sems[sem].count <= 0
    ensures var s0 := SetCount(SetCont(s, s.currpid, c), sem, s.sems[sem].count - 1);
            Rest(Enqueue(SetProc(s0, s0.currpid, s0.procs[s0.currpid].(state := Wait, sem := sem)), s0.currpid, sem))
  {
    var p := s.currpid;
    var s0 := SetCount(SetCont(s, p, c), sem, s.sems[sem].count - 1);
    var t := Enqueue(SetProc(s0, p, s0.procs[p].(state := Wait, sem := sem)), p, sem);
    forall i | 0 <= i < |s.pools|
      ensures PoolBalance(t, i)
    {
      assert PoolBalance(s, i);
      GrantedChange(s, t, p, i);
    }
  }

  lemma WaitUsedInv(s: KState, sem: int, c: Cont)
    requires Inv(s) && s.conts[s.currpid].NoCont? && WaitCont(s, sem, c) && !BadSem(s, sem)
    requires s.sems[sem].count <= 0 ==> s.currpid != NULLPROC && s.ndefers == 0
    ensures Inv(WaitUsed(SetCont(s, s.currpid, c), sem))
  {
    hide Inv, Resched;
    if s.sems[sem].count > 0 {
      WaitPassesInv(s, sem, c);
    } else {
      WaitBlocksInv(s, sem, c);
    }
  }

  lemma WaitInv(s: KState, sem: int)
    requires Inv(s) && Enabled(s, WaitFor(sem))
    ensures Inv(WaitOp(s, sem))
  {
    hide Inv, Resched;
    if !BadSem(s, sem) {
      WaitUsedInv(s, sem, NoCont);
      assert SetCont(s, s.currpid, NoCont) == s;
    }
  }

  lemma GetbufInv(s: KState, i: int)
    requires Inv(s) && Enabled(s, Getbuf(i))
    ensures Inv(GetbufOp(s, i))
  {
    if 0 <= i < |s.pools| {
      WaitUsedInv(s, s.pools[i].sem, InGetbuf(i));
    }
  }

  // ---- releasing one process -------------------------------------------------------

  /** What releasing the first process of a queue changes, and nothing else. */
  lemma ReleaseFirstFrame(s: KState, k: int)
    requires Core(s) && 0 <= k < NLISTS && k != READYQ && s.lists[k] != []
    ensures var p := s.lists[k][0]; var t := ReleaseFirst(s, k);
            && 0 <= p < NPROC && Home(s.procs[p]) == k
            && t.procs == s.procs[p := s.procs[p].(state := Ready)]
            && t == s.(procs := t.procs, keys := t.keys, lists := t.lists)
            && t.keys == s.keys[p := s.procs[p].prio]
            && t.lists[k] == s.lists[k][1..]
            && (forall j :: 0 <= j < NLISTS && j != k && j != READYQ ==> t.lists[j] == s.lists[j])
  {
    assert s.lists[k][0] in s.lists[k];
  }

  lemma ReleaseCont(s: KState, p: int, t: KState)
    requires ContOK(s) && 0 <= p < NPROC && Home(s.procs[p]) != -1
    requires t.procs == s.procs[p := s.procs[p].(state := Ready)] && t.conts == s.conts && t.pools == s.pools
    ensures ContOK(t)
  {
    assert ContFits(s.procs[p], s.conts[p], s.pools);
    assert ContFits(t.procs[p], t.conts[p], t.pools);
  }

  /** A released waiter counts as granted exactly on the pool whose semaphore it waited for. */
  lemma ReleasePools(s: KState, k: int, i: int)
    requires Core(s) && ContOK(s) && 0 <= k < NLISTS && k != READYQ && s.lists[k] != [] && 0 <= i < |s.pools|
    requires forall a, b :: 0 <= a < b < |s.pools| ==> s.pools[a].sem != s.pools[b].sem
    ensures var t := ReleaseFirst(s, k);
            |GrantedSet(t.procs, t.conts, i)| ==
              |GrantedSet(s.procs, s.conts, i)| + (if s.pools[i].sem == k && k < NSEM then 1 else 0)
  {
    ReleaseFirstFrame(s, k);
    var p := s.lists[k][0];
    var t := ReleaseFirst(s, k);
    assert ContFits(s.procs[p], s.conts[p], s.pools);
    GrantedChange(s, t, p, i);
  }

  // ---- signal ----------------------------------------------------------------------

  lemma SignalOneFrame(s: KState, sem: int)
    requires Core(s) && SemOK(s) && 0 <= sem < NSEM && s.sems[sem].used
    ensures var t := SignalOne(s, sem);
            && Core(t)
            && t == s.(procs := t.procs, keys := t.keys, lists := t.lists, sems := t.sems)
            && t.sems == s.sems[sem := s.sems[sem].(count := s.sems[sem].count + 1)]
            && t.lists[sem] == (if s.sems[sem].count < 0 then s.lists[sem][1..] else s.lists[sem])
            && (forall k :: 0 <= k < NLISTS && k != sem && k != READYQ ==> t.lists[k] == s.lists[k])
            && (if s.sems[sem].count < 0
                then var p := s.lists[sem][0];
                     0 <= p < NPROC && Home(s.procs[p]) == sem && t.procs == s.procs[p := s.procs[p].(state := Ready)]
                else t.procs == s.procs)
  {
    var s1 := SetCount(s, sem, s.sems[sem].count + 1);
    CoreIgnores(s, s1, -1);
    if s.sems[sem].count < 0 {
      ReleaseFirstCore(s1, sem);
      ReleaseFirstFrame(s1, sem);
    }
  }

  /** One signal, before any reschedule. */
  lemma SignalOneMid(s: KState, sem: int)
    requires Core(s) && SemOK(s) && ContOK(s) && 0 <= sem < NSEM && s.sems[sem].used
    ensures var t := SignalOne(s, sem);
            && Core(t) && SemOK(t) && ContOK(t)
            && t == s.(procs := t.procs, keys := t.keys, lists := t.lists, sems := t.sems)
            && t.sems == s.sems[sem := s.sems[sem].(count := s.sems[sem].count + 1)]
            && (s.procs[s.currpid].state.Curr? ==> t.procs[s.currpid] == s.procs[s.currpid])
  {
    SignalOneFrame(s, sem);
    if s.sems[sem].count < 0 {
      ReleaseCont(s, s.lists[sem][0], SignalOne(s, sem));
    }
  }

  /** What pool `i` has to cover: its count and the waits it has granted. */
  ghost function Owed(s: KState, i: int): nat
    requires 0 <= i < |s.pools| && 0 <= s.pools[i].sem < NSEM
  {
    Pos(s.sems[s.pools[i].sem].count) + |GrantedSet(s.procs, s.conts, i)|
  }

  /** A signal adds one unit to the pool on that semaphore and none to any other. */
  lemma SignalOnePool(s: KState, sem: int, i: int)
    requires Core(s) && SemOK(s) && ContOK(s) && 0 <= sem < NSEM && s.sems[sem].used
    requires forall a, b :: 0 <= a < b < |s.pools| ==> s.pools[a].sem != s.pools[b].sem
    requires 0 <= i < |s.pools| && 0 <= s.pools[i].sem < NSEM
    ensures SignalOne(s, sem).pools == s.pools
    ensures Owed(SignalOne(s, sem), i) == Owed(s, i) + if s.pools[i].sem == sem then 1 else 0
  {
    SignalOneMid(s, sem);
    if s.sems[sem].count < 0 {
      var s1 := SetCount(s, sem, s.sems[sem].count + 1);
      CoreIgnores(s, s1, -1);
      ReleasePools(s1, sem, i);
    }
  }

  lemma SignalOneRest(s: KState, sem: int)
    requires Core(s) && Rest(s) && 0 <= sem < NSEM && s.sems[sem].used && !Private(s, sem)
    ensures var t := SignalOne(s, sem);
            && Core(t) && Rest(t) && t.currpid == s.currpid && t.ndefers == s.ndefers && t.pools == s.pools
            && t.sems[sem].used && (s.procs[s.currpid].state.Curr? ==> t.procs[s.currpid].state.Curr?)
  {
    SignalOneMid(s, sem);
    var t := SignalOne(s, sem);
    forall i | 0 <= i < |s.pools|
      ensures PoolBalance(t, i)
    {
      assert PoolBalance(s, i);
      SignalOnePool(s, sem, i);
    }
  }

  lemma SignalInv(s: KState, sem: int)
    requires Inv(s) && Enabled(s, Signal(sem))
    ensures Inv(SignalOp(s, sem))
  {
    if !BadSem(s, sem) {
      SignalOneRest(s, sem);
      if s.sems[sem].count < 0 {
        ReschedInv(SignalOne(s, sem));
      }
    }
  }

  lemma SignalManyRest(s: KState, sem: int, n: nat)
    requires Core(s) && Rest(s) && 0 <= sem < NSEM && s.sems[sem].used && !Private(s, sem)
    ensures var t := SignalMany(s, sem, n);
            && Core(t) && Rest(t) && t.currpid == s.currpid && t.ndefers == s.ndefers
            && (s.procs[s.currpid].state.Curr? ==> t.procs[s.currpid].state.Curr?)
    decreases n
  {
    if n > 0 {
      SignalOneRest(s, sem);
      SignalManyRest(SignalOne(s, sem), sem, n - 1);
    }
  }

  lemma SignalnInv(s: KState, sem: int, count: int)
    requires Inv(s) && Enabled(s, Signaln(sem, count))
    ensures Inv(SignalnOp(s, sem, count))
  {
    if !BadSem(s, sem) && count >= 0 {
      SignalManyRest(s, sem, count);
      ReschedInv(SignalMany(s, sem, count));
    }
  }

  lemma FreebufPushed(s: KState, i: int, buf: int, s1: KState)
    requires Core(s) && Rest(s) && 0 <= i < |s.pools| && buf in s.pools[i].lent
    requires s1 == s.(pools := s.pools[i := Pushed(s.pools[i], buf)])
    ensures Core(s1) && SemOK(s1) && ContOK(s1)
    ensures forall j :: 0 <= j < |s.pools| ==> PoolShape(s1.pools[j]) && s1.pools[j].sem == s.pools[j].sem
    ensures forall j :: 0 <= j < |s.pools| ==> Owed(s1, j) == Owed(s, j)
  {
    CoreIgnores(s, s1, -1);
    SamePoolSems(s, s1);
    assert PoolShape(s.pools[i]) && PoolShape(s1.pools[i]);
    hide CoreX, ContFits;
  }

  /** Pushing the buffer and signalling together keep the pools balanced. */
  lemma FreebufMid(s: KState, i: int, buf: int, s1: KState)
    requires Core(s) && Rest(s) && 0 <= i < |s.pools| && buf in s.pools[i].lent
    requires s1 == s.(pools := s.pools[i := Pushed(s.pools[i], buf)])
    ensures Core(s1) && SemOK(s1) && ContOK(s1)
    ensures Rest(SignalOne(s1, s.pools[i].sem))
  {
    FreebufPushed(s, i, buf, s1);
    var sem := s.pools[i].sem;
    SignalOneMid(s1, sem);
    var t := SignalOne(s1, sem);
    hide CoreX, ContFits, SignalOne, PoolShape;
    forall j | 0 <= j < |s.pools|
      ensures PoolBalance(t, j)
    {
      assert PoolBalance(s, j);
      SignalOnePool(s1, sem, j);
    }
  }

  lemma FreebufInv(s: KState, i: int, buf: int)
    requires Inv(s) && Enabled(s, Freebuf(i, buf))
    ensures Inv(FreebufOp(s, i, buf))
  {
    if 0 <= i < |s.pools| {
      var b := s.pools[i];
      var s1 := s.(pools := s.pools[i := Pushed(b, buf)]);
      FreebufMid(s, i, buf, s1);
      SignalOneMid(s1, b.sem);
      if s.sems[b.sem].count < 0 {
        ReschedInv(SignalOne(s1, b.sem));
      }
    }
  }

  // ---- draining a queue ------------------------------------------------------------

  lemma ReleaseAllMid(s: KState, k: int)
    requires Core(s) && ContOK(s) && 0 <= k < NSEM
    requires forall a, b :: 0 <= a < b < |s.pools| ==> s.pools[a].sem != s.pools[b].sem
    requires !Private(s, k)
    ensures var t := ReleaseAll(s, k);
            && Core(t) && ContOK(t) && t.lists[k] == []
            && t == s.(procs := t.procs, keys := t.keys, lists := t.lists)
            && (forall j :: 0 <= j < NLISTS && j != k && j != READYQ ==> t.lists[j] == s.lists[j])
            && (s.procs[s.currpid].state.Curr? ==> t.procs[s.currpid].state.Curr?)
            && (forall i :: 0 <= i < |s.pools| ==>
                  |GrantedSet(t.procs, t.conts, i)| == |GrantedSet(s.procs, s.conts, i)|)
    decreases |s.lists[k]|
  {
    if s.lists[k] != [] {
      var t := ReleaseFirst(s, k);
      ReleaseFirstCore(s, k);
      ReleaseFirstFrame(s, k);
      ReleaseCont(s, s.lists[k][0], t);
      forall i | 0 <= i < |s.pools|
        ensures |GrantedSet(t.procs, t.conts, i)| == |GrantedSet(s.procs, s.conts, i)|
      {
        ReleasePools(s, k, i);
      }
      ReleaseAllMid(t, k);
    }
  }

  lemma {:induction false} ReleaseAllSems(s: KState, k: int)
    requires 0 <= k < NLISTS && k != READYQ
    ensures ReleaseAll(s, k).sems == s.sems
    decreases |s.lists[k]|
  {
    if !(s.lists[k] == [] || !(0 <= s.lists[k][0] < NPROC)) {
      ReleaseAllSems(ReleaseFirst(s, k), k);
    }
  }

  lemma DrainRest(s: KState, t: KState, u: KState, sem: int, e: Sem)
    requires Rest(s) && 0 <= sem < NSEM && !Private(s, sem) && (e.used ==> e.count >= 0)
    requires ContOK(t) && t.lists[sem] == [] && t == s.(procs := t.procs, keys := t.keys, lists := t.lists)
    requires forall j :: 0 <= j < NLISTS && j != sem && j != READYQ ==> t.lists[j] == s.lists[j]
    requires forall i :: 0 <= i < |s.pools| ==> |GrantedSet(t.procs, t.conts, i)| == |GrantedSet(s.procs, s.conts, i)|
    requires u == t.(sems := t.sems[sem := e])
    ensures Rest(u)
  {
    forall i | 0 <= i < |s.pools|
      ensures PoolBalance(u, i)
    {
      assert PoolBalance(s, i);
    }
  }

  /** `semdelete` and `semreset` share their drain; they differ in the entry they leave. */
  lemma DrainInv(s: KState, sem: int, e: Sem)
    requires Inv(s) && !BadSem(s, sem) && !Private(s, sem) && (e.used ==> e.count >= 0)
    ensures Inv(Resched(SetSem(ReleaseAll(s, sem), sem, e)))
  {
    hide CoreX, Resched, ReleaseAll, Private, GrantedSet, ContFits;
    ReleaseAllMid(s, sem);
    var t := ReleaseAll(s, sem);
    var u := SetSem(t, sem, e);
    CoreIgnores(t, u, -1);
    DrainRest(s, t, u, sem, e);
    ReschedInv(u);
  }

  // ---- creation --------------------------------------------------------------------

  lemma SemcreateInv(s: KState, count: int)
    requires Inv(s)
    ensures Inv(SemcreateOp(s, count))
  {
    var t := SemcreateOp(s, count);
    CoreIgnores(s, t, -1);
    forall i | 0 <= i < |s.pools|
      ensures PoolBalance(t, i)
    {
      assert PoolBalance(s, i);
    }
  }

  /** A new pool on a fresh semaphore nobody waits for. */
  lemma AddPoolRest(u: KState, t: KState, b: Pool)
    requires Core(u) && Rest(u) && t == u.(pools := u.pools + [b])
    requires 0 <= b.sem < NSEM && u.sems[b.sem] == Sem(true, |b.free|) && u.lists[b.sem] == [] && !Private(u, b.sem)
    requires NoDup(b.free) && b.lent == {} && b.lost == 0
    ensures Rest(t)
  {
    var n := |u.pools|;
    forall p | 0 <= p < NPROC
      ensures ContFits(t.procs[p], t.conts[p], t.pools) && !Granted(t.procs[p], t.conts[p], n)
    {
      Fits(u, p);
      if u.procs[p].state.Wait? { AtHome(u, p); }
    }
    assert GrantedSet(t.procs, t.conts, n) == {};
    forall i | 0 <= i < n
      ensures PoolBalance(t, i) && t.pools[i] == u.pools[i]
    {
      assert PoolBalance(u, i);
    }
    hide CoreX;
  }

  lemma MkbufpoolInv(s: KState, bufsiz: int, numbufs: int, mem: Option<int>)
    requires Inv(s)
    ensures Inv(MkbufpoolOp(s, bufsiz, numbufs, mem))
  {
    var t := MkbufpoolOp(s, bufsiz, numbufs, mem);
    if t != s {
      SemcreateInv(s, numbufs);
      var u := SemcreateOp(s, numbufs);
      var sem := FindSem(s.sems, s.nextsem, 0).value;
      CoreIgnores(u, t, -1);
      NewPoolShape(mem.value, bufsiz, numbufs);
      assert !Private(u, sem);
      hide CoreX, PoolBufs;
      AddPoolRest(u, t, Pool(sem, PoolBufs(mem.value, bufsiz, numbufs), {}, 0));
    }
  }

  lemma NewPoolShape(base: int, bufsiz: int, numbufs: nat)
    requires bufsiz >= BP_MINB
    ensures NoDup(PoolBufs(base, bufsiz, numbufs))
  {
    var l := PoolBufs(base, bufsiz, numbufs);
    forall i, j | 0 <= i < j < |l|
      ensures l[i] != l[j]
    {
      Spaced(i, j, BufSize(bufsiz));
    }
  }

  lemma Spaced(i: int, j: int, size: int)
    requires i < j && size > 0
    ensures i * size + size <= j * size
  {
    assert (j - i - 1) * size >= 0;
    assert j * size == i * size + (j - i - 1) * size + size;
  }

  lemma CreateInv(s: KState, stack: bool, prio: int)
    requires Inv(s)
    ensures Inv(CreateOp(s, stack, prio))
  {
    var t := CreateOp(s, stack, prio);
    match FindPid(s.procs, s.nextpid, 0)
    case None => CoreIgnores(s, t, -1); RestFrame(s, t);
    case Some(pid) =>
      if stack && prio >= 1 {
        assert ContFits(s.procs[pid], s.conts[pid], s.pools);
        RestMove(s, t, pid);
      } else {
        CoreIgnores(s, t, -1);
        RestFrame(s, t);
      }
  }

  // ---- suspend and resume ----------------------------------------------------------

  lemma ResumeInv(s: KState, pid: int)
    requires Inv(s)
    ensures Inv(ResumeOp(s, pid))
  {
    if !BadPid(s, pid) && s.procs[pid].state.Susp? {
      Lift(s, pid);
      MakeReadyCore(s, pid);
      assert ContFits(s.procs[pid], s.conts[pid], s.pools);
      RestMove(s, MakeReady(s, pid), pid);
      ReschedInv(MakeReady(s, pid));
    }
  }

  lemma SuspendReadyInv(s: KState, pid: int)
    requires Inv(s) && 0 < pid < NPROC && s.procs[pid].state.Ready?
    ensures Inv(SetState(Unlink(s, pid, READYQ), pid, Susp))
  {
    var s1 := Unlink(s, pid, READYQ);
    UnlinkCore(s, pid);
    assert NoDup(s.lists[READYQ]);
    RemoveFacts(s.lists[READYQ], pid);
    Fits(s, pid);
    hide CoreX, Rest, Remove;
    TransitProc(s1, pid, s1.procs[pid].(state := Susp));
    Settle(SetState(s1, pid, Susp), pid);
    RestMove(s, SetState(s1, pid, Susp), pid);
  }

  lemma SuspendSelfInv(s: KState, pid: int)
    requires Inv(s) && 0 < pid < NPROC && s.procs[pid].state.Curr? && s.ndefers == 0
    ensures Inv(Resched(SetState(s, pid, Susp)))
  {
    Lift(s, pid);
    Fits(s, pid);
    hide CoreX, Rest, Resched;
    TransitProc(s, pid, s.procs[pid].(state := Susp));
    Settle(SetState(s, pid, Susp), pid);
    RestMove(s, SetState(s, pid, Susp), pid);
    ReschedInv(SetState(s, pid, Susp));
  }

  lemma SuspendInv(s: KState, pid: int)
    requires Inv(s) && Enabled(s, Suspend(pid))
    ensures Inv(SuspendOp(s, pid))
  {
    InvRuns(s);
    hide Inv, Resched, Unlink, SetState;
    if !BadPid(s, pid) && pid != NULLPROC {
      if s.procs[pid].state.Ready? {
        SuspendReadyInv(s, pid);
      } else if s.procs[pid].state.Curr? {
        SuspendSelfInv(s, pid);
      }
    }
  }

  // ---- sleeping, messages ----------------------------------------------------------

  /** The current process leaves the CPU for the sleep queue. */
  lemma DelayInv(s: KState, c: Cont, key: int, st: PrState)
    requires Inv(s) && s.conts[s.currpid].NoCont? && s.currpid != NULLPROC && s.ndefers == 0
    requires (st.Sleep? && c.NoCont?) || (st.RecTim? && c.InRecvtime? && !s.procs[s.currpid].hasmsg)
    ensures Inv(Resched(SetState(InsertD(SetCont(s, s.currpid, c), s.currpid, key), s.currpid, st)))
  {
    var p := s.currpid;
    var s1 := SetCont(s, p, c);
    var t := SetState(InsertD(s1, p, key), p, st);
    Lift(s, p);
    CoreIgnores(s, s1, p);
    InsertDCore(s1, p, key, st);
    InsertDKeys(s1, p, key);
    assert ContFits(s.procs[p], s.conts[p], s.pools);
    RestMove(s, t, p);
    ReschedInv(t);
  }

  lemma SleepmsInv(s: KState, delay: int)
    requires Inv(s) && Enabled(s, Sleepms(delay))
    ensures Inv(SleepmsOp(s, delay))
  {
    if delay == 0 {
      ReschedInv(s);
    } else {
      DelayInv(s, NoCont, W32(delay), Sleep);
      assert SetCont(s, s.currpid, NoCont) == s;
    }
  }

  lemma RecvtimeInv(s: KState, maxwait: int)
    requires Inv(s) && Enabled(s, Recvtime(maxwait))
    ensures Inv(RecvtimeOp(s, maxwait))
  {
    if maxwait >= 0 {
      if s.procs[s.currpid].hasmsg {
        var t := SetCont(s, s.currpid, InRecvtime);
        CoreIgnores(s, t, -1);
        RestMove(s, t, s.currpid);
      } else {
        DelayInv(s, InRecvtime, maxwait, RecTim);
      }
    }
  }

  lemma ReceiveInv(s: KState)
    requires Inv(s) && Enabled(s, Receive)
    ensures Inv(ReceiveOp(s))
  {
    var p := s.currpid;
    var s1 := SetCont(s, p, InReceive);
    if s.procs[p].hasmsg {
      CoreIgnores(s, s1, -1);
      RestMove(s, s1, p);
    } else {
      var t := SetState(s1, p, Recv);
      Lift(s, p);
      CoreIgnores(s, s1, p);
      TransitProc(s1, p, s1.procs[p].(state := Recv));
      Settle(t, p);
      RestMove(s, t, p);
      ReschedInv(t);
    }
  }

  /** A table entry may change its message, semaphore and parent fields without moving. */
  lemma SameStateCore(s: KState, p: int, pr: Proc)
    requires Core(s) && 0 <= p < NPROC
    requires pr == s.procs[p].(hasmsg := pr.hasmsg, msg := pr.msg)
    ensures Core(SetProc(s, p, pr))
  {
    var t := SetProc(s, p, pr);
    forall q | 0 <= q < NPROC
      ensures Home(t.procs[q]) == Home(s.procs[q]) && t.procs[q].prio == s.procs[q].prio
      ensures t.procs[q].state == s.procs[q].state
    {
    }
    hide Home;
  }

  lemma InvCurr(s: KState)
    requires Inv(s)
    ensures CurrInRange(s) && s.procs[s.currpid].state.Curr? && s.ndefers >= 0
  {
  }

  /** A blocked receiver leaves its state, with the message, for the ready list. */
  lemma DeliverInv(s: KState, pid: int, pr: Proc, s1: KState)
    requires Inv(s) && 0 <= pid < NPROC && !s.procs[pid].hasmsg
    requires s.procs[pid].state.Recv? || s.procs[pid].state.RecTim?
    requires pr == s.procs[pid].(msg := pr.msg, hasmsg := true)
    requires s1 == if pr.state.Recv? then SetProc(s, pid, pr) else Unsleep(SetProc(s, pid, pr), pid)
    ensures Inv(Resched(MakeReady(s1, pid)))
  {
    InvCurr(s);
    hide CoreX, Rest, Running, Resched, KeyPos, InsertAt, Remove;
    SameStateCore(s, pid, pr);
    if pr.state.Recv? {
      Lift(s1, pid);
    } else {
      UnsleepCore(SetProc(s, pid, pr), pid);
    }
    MakeReadyCore(s1, pid);
    Fits(s, pid);
    RestMove(s, MakeReady(s1, pid), pid);
    ReschedInv(MakeReady(s1, pid));
  }

  lemma SendInv(s: KState, pid: int, msg: int)
    requires Inv(s)
    ensures Inv(SendOp(s, pid, msg))
  {
    if !BadPid(s, pid) && !s.procs[pid].hasmsg {
      var pr := s.procs[pid].(msg := msg, hasmsg := true);
      var s1 := SetProc(s, pid, pr);
      if s.procs[pid].state.Recv? {
        DeliverInv(s, pid, pr, s1);
      } else if s.procs[pid].state.RecTim? {
        DeliverInv(s, pid, pr, Unsleep(s1, pid));
      } else {
        SameStateCore(s, pid, pr);
        assert ContFits(s.procs[pid], s.conts[pid], s.pools);
        RestMove(s, s1, pid);
      }
    }
  }

  lemma ClearMsgInv(s: KState)
    requires Inv(s) && !s.conts[s.currpid].InReceive?
    ensures Inv(ClearMsg(s))
  {
    var p := s.currpid;
    SameStateCore(s, p, s.procs[p].(hasmsg := false));
    assert ContFits(s.procs[p], s.conts[p], s.pools);
    RestMove(s, ClearMsg(s), p);
  }

  // ---- kill ------------------------------------------------------------------------

  /** Giving the current process another continuation that is not a pop. */
  lemma SetContInv(s: KState, c: Cont)
    requires Inv(s) && !s.conts[s.currpid].InGetbuf? && !c.InGetbuf? && !c.InReceive?
    requires c.InKill? ==> 0 < c.pid < NPROC
    ensures Inv(SetCont(s, s.currpid, c))
  {
    var t := SetCont(s, s.currpid, c);
    CoreIgnores(s, t, -1);
    RestMove(s, t, s.currpid);
  }

  lemma KillInv(s: KState, pid: int)
    requires Inv(s) && Enabled(s, Kill(pid))
    ensures Inv(KillOp(s, pid))
  {
    if !BadPid(s, pid) && pid != NULLPROC {
      SetContInv(s, InKill(pid));
      SendInv(SetCont(s, s.currpid, InKill(pid)), s.procs[pid].parent, pid);
    }
  }

  /** Freeing the table entry of a process that is in transit. */
  lemma SetFreeCore(s: KState, p: int)
    requires CoreX(s, p) && 0 < p < NPROC
    ensures Core(SetFree(s, p))
  {
    var t := SetFree(s, p);
    TransitProc(s, p, s.procs[p].(state := Free));
    CoreIgnores(SetState(s, p, Free), t, p);
    Settle(t, p);
  }

  /** Pools after a kill: the victim no longer counts as granted, its buffer counts as lost. */
  lemma SetFreeRest(s: KState, s1: KState, p: int)
    requires Rest(s) && 0 <= p < NPROC
    requires s1 == s.(lists := s1.lists, keys := s1.keys, sems := s1.sems)
    requires SemOK(s1)
    requires forall k :: 0 <= k < NSEM ==>
               s1.sems[k].used == s.sems[k].used && Pos(s1.sems[k].count) == Pos(s.sems[k].count)
    ensures Rest(SetFree(s1, p))
  {
    var t := SetFree(s1, p);
    assert ContFits(s.procs[p], s.conts[p], s.pools);
    forall q | 0 <= q < NPROC
      ensures ContFits(t.procs[q], t.conts[q], t.pools)
    {
      assert ContFits(s.procs[q], s.conts[q], s.pools);
    }
    forall i | 0 <= i < |s.pools|
      ensures PoolBalance(t, i)
    {
      assert PoolBalance(s, i);
      GrantedChange(s, t, p, i);
    }
  }

  /** A victim that is not running is unlinked from its queue and freed; the others keep running. */
  lemma KillQueuedInv(s: KState, s1: KState, p: int)
    requires Inv(s) && 0 < p < NPROC && p != s.currpid
    requires CoreX(s1, p) && SemOK(s1) && s1 == s.(lists := s1.lists, keys := s1.keys, sems := s1.sems)
    requires forall q :: q in s1.lists[READYQ] ==> q in s.lists[READYQ]
    requires forall k :: 0 <= k < NSEM ==>
               s1.sems[k].used == s.sems[k].used && Pos(s1.sems[k].count) == Pos(s.sems[k].count)
    ensures Inv(SetFree(s1, p))
  {
    SetFreeCore(s1, p);
    SetFreeRest(s, s1, p);
  }

  lemma KillWaiterSem(s: KState, p: int, sem: int)
    requires SemOK(s) && 0 <= sem < NSEM && p in s.lists[sem]
    ensures var s1 := Unlink(SetCount(s, sem, s.sems[sem].count + 1), p, sem);
            && SemOK(s1)
            && (forall k :: 0 <= k < NSEM ==>
                  s1.sems[k].used == s.sems[k].used && Pos(s1.sems[k].count) == Pos(s.sems[k].count))
  {
  }

  lemma KillWaiterInv(s: KState, p: int)
    requires Inv(s) && 0 < p < NPROC && s.procs[p].state.Wait?
    ensures Inv(KillRest(s, p))
  {
    AtHome(s, p);
    InvRuns(s);
    assert Core(s) && SemOK(s);
    hide Inv, CoreX, SemOK, SetFree, Remove, Resched, Unsleep;
    var sem := s.procs[p].sem;
    var s1 := Unlink(SetCount(s, sem, s.sems[sem].count + 1), p, sem);
    assert KillRest(s, p) == SetFree(s1, p);
    hide KillRest;
    KillWaiterSem(s, p, sem);
    KillWaiterCore(s, p);
    KillQueuedInv(s, s1, p);
  }

  lemma KillWaiterCore(s: KState, p: int)
    requires Core(s) && 0 <= p < NPROC && s.procs[p].state.Wait? && 0 <= s.procs[p].sem < NSEM
    ensures var sem := s.procs[p].sem; CoreX(Unlink(SetCount(s, sem, s.sems[sem].count + 1), p, sem), p)
  {
    hide CoreX, Remove;
    var sem := s.procs[p].sem;
    var s0 := SetCount(s, sem, s.sems[sem].count + 1);
    CoreIgnores(s, s0, -1);
    UnlinkCore(s0, p);
  }

  /** Victims off the CPU and off the semaphore queues. */
  lemma KillIdleInv(s: KState, s1: KState, p: int)
    requires Inv(s) && 0 < p < NPROC && p != s.currpid
    requires CoreX(s1, p) && s1 == s.(lists := s1.lists, keys := s1.keys)
    requires forall k :: 0 <= k < NSEM ==> s1.lists[k] == s.lists[k]
    requires forall q :: q in s1.lists[READYQ] ==> q in s.lists[READYQ]
    ensures Inv(SetFree(s1, p))
  {
    KillQueuedInv(s, s1, p);
    hide Inv, SetFree;
  }

  lemma KillSelfInv(s: KState, p: int)
    requires Inv(s) && 0 < p < NPROC && s.ndefers == 0 && s.procs[p].state.Curr?
    ensures Inv(Resched(SetFree(s, p)))
  {
    Lift(s, p);
    SetFreeCore(s, p);
    SetFreeRest(s, s, p);
    hide CoreX, Rest, Resched;
    ReschedInv(SetFree(s, p));
  }

  lemma KillReadyInv(s: KState, p: int)
    requires Inv(s) && 0 < p < NPROC && s.procs[p].state.Ready?
    ensures Inv(SetFree(Unlink(s, p, READYQ), p))
  {
    UnlinkCore(s, p);
    assert NoDup(s.lists[READYQ]);
    RemoveFacts(s.lists[READYQ], p);
    hide CoreX, Rest, SetFree, Remove;
    KillIdleInv(s, Unlink(s, p, READYQ), p);
  }

  lemma KillSleeperInv(s: KState, p: int)
    requires Inv(s) && 0 < p < NPROC && (s.procs[p].state.Sleep? || s.procs[p].state.RecTim?)
    ensures Inv(SetFree(Unsleep(s, p), p))
  {
    UnsleepCore(s, p);
    hide CoreX, Rest, SetFree, Remove;
    KillIdleInv(s, Unsleep(s, p), p);
  }

  lemma KillDormantInv(s: KState, p: int)
    requires Inv(s) && 0 < p < NPROC && Home(s.procs[p]) == -1 && !s.procs[p].state.Curr?
    ensures Inv(SetFree(s, p))
  {
    Lift(s, p);
    hide CoreX, Rest, SetFree;
    KillIdleInv(s, s, p);
  }

  lemma KillRestInv(s: KState, p: int)
    requires Inv(s) && 0 < p < NPROC && (p == s.currpid ==> s.ndefers == 0)
    ensures Inv(KillRest(s, p))
  {
    InvRuns(s);
    hide Inv, Unsleep, Unlink, SetFree, Resched, SetCount;
    var st := s.procs[p].state;
    if st.Curr? {
      KillSelfInv(s, p);
    } else if st.Sleep? || st.RecTim? {
      KillSleeperInv(s, p);
    } else if st.Wait? {
      KillWaiterInv(s, p);
    } else if st.Ready? {
      KillReadyInv(s, p);
    } else {
      KillDormantInv(s, p);
    }
  }

  /** Exactly the current process is marked current. */
  lemma InvRuns(s: KState)
    requires Inv(s)
    ensures CurrInRange(s) && s.ndefers >= 0
    ensures forall p :: 0 <= p < NPROC ==> (s.procs[p].state.Curr? <==> p == s.currpid)
  {
  }

  // ---- clock -----------------------------------------------------------------------

  lemma WakeLoopRest(s: KState)
    requires Core(s) && Rest(s)
    ensures var t := WakeLoop(s);
            && Core(t) && Rest(t) && t.currpid == s.currpid && t.ndefers == s.ndefers
            && (s.procs[s.currpid].state.Curr? ==> t.procs[s.currpid].state.Curr?)
    decreases |s.lists[SLEEPQ]|
  {
    var l := s.lists[SLEEPQ];
    if !(l == [] || !(0 <= l[0] < NPROC) || s.keys[l[0]] > 0) {
      var t := ReleaseFirst(s, SLEEPQ);
      ReleaseFirstCore(s, SLEEPQ);
      ReleaseFirstFrame(s, SLEEPQ);
      assert ContFits(s.procs[l[0]], s.conts[l[0]], s.pools);
      RestMove(s, t, l[0]);
      WakeLoopRest(t);
    }
  }

  lemma DecFirstInv(s: KState)
    requires Inv(s)
    ensures Inv(DecFirst(s))
  {
    var l := s.lists[SLEEPQ];
    if l != [] { assert l[0] in l; }
    SameReadyKeys(s, DecFirst(s), -1);
    RestFrame(s, DecFirst(s));
  }

  lemma TickInv(s: KState)
    requires Inv(s) && Enabled(s, Tick)
    ensures Inv(TickOp(s))
  {
    SetContInv(s, InTick);
    DecFirstInv(SetCont(s, s.currpid, InTick));
    var s1 := DecFirst(SetCont(s, s.currpid, InTick));
    WakeLoopRest(s1);
    if s.lists[SLEEPQ] != [] && Key(s1.keys, s.lists[SLEEPQ][0]) <= 0 {
      ReschedInv(WakeLoop(s1));
    }
  }

  /** Fields that only the clock and the deferral counter read. */
  lemma CountersInv(s: KState, t: KState)
    requires Core(s) && Rest(s)
    requires t == s.(preempt := t.preempt, ndefers := t.ndefers, attempt := t.attempt)
    ensures Core(t) && Rest(t)
  {
    CoreIgnores(s, t, -1);
    RestFrame(s, t);
  }

  lemma TickRestInv(s: KState)
    requires Inv(s)
    ensures Inv(TickRest(s))
  {
    var n := (s.preempt - 1) % 0x1_0000_0000;
    CountersInv(s, s.(preempt := QUANTUM));
    CountersInv(s, s.(preempt := n));
    ReschedInv(s.(preempt := QUANTUM));
  }

  lemma DeferInv(s: KState)
    requires Inv(s)
    ensures Inv(DeferStart(s)) && Inv(DeferStop(s))
  {
    CountersInv(s, DeferStart(s));
    var s1 := s.(ndefers := s.ndefers - 1);
    CountersInv(s, s1);
    if s1.ndefers == 0 && s1.attempt {
      ReschedInv(s1);
    }
  }

  // ---- continuations ---------------------------------------------------------------

  /** Continuations look only at which semaphore a pool has. */
  lemma SamePoolSems(s: KState, t: KState)
    requires ContOK(s) && t.procs == s.procs && t.conts == s.conts && |t.pools| == |s.pools|
    requires forall i :: 0 <= i < |s.pools| ==> t.pools[i].sem == s.pools[i].sem
    ensures ContOK(t)
  {
    forall q | 0 <= q < NPROC
      ensures ContFits(t.procs[q], t.conts[q], t.pools)
    {
      assert ContFits(s.procs[q], s.conts[q], s.pools);
    }
  }

  /** Taking a buffer settles one grant. */
  lemma TakeBufRest(s: KState, p: int, i: int)
    requires Rest(s) && 0 <= p < NPROC && s.procs[p].state.Curr? && s.conts[p] == InGetbuf(i)
    ensures 0 <= i < |s.pools| && s.pools[i].free != []
    ensures Rest(TakeBuf(SetCont(s, p, NoCont), i))
  {
    Fits(s, p);
    assert PoolBalance(s, i) && PoolShape(s.pools[i]);
    assert p in GrantedSet(s.procs, s.conts, i);
    var t := TakeBuf(SetCont(s, p, NoCont), i);
    var u := s.(pools := t.pools);
    SamePoolSems(s, u);
    assert ContFits(t.procs[p], t.conts[p], t.pools);
    assert ContOK(t);
    forall j | 0 <= j < |s.pools|
      ensures PoolBalance(t, j)
    {
      assert PoolBalance(s, j);
      GrantedChange(s, t, p, j);
    }
    hide ContFits, GrantedSet;
  }

  /** The pop of `getbuf` always finds a buffer. */
  lemma TakeBufInv(s: KState, i: int)
    requires Inv(s) && s.conts[s.currpid] == InGetbuf(i)
    ensures 0 <= i < |s.pools| && s.pools[i].free != []
    ensures Inv(TakeBuf(SetCont(s, s.currpid, NoCont), i))
  {
    TakeBufRest(s, s.currpid, i);
    CoreIgnores(s, TakeBuf(SetCont(s, s.currpid, NoCont), i), -1);
    hide CoreX, Rest;
  }

  lemma ClearFinishInv(s: KState)
    requires Inv(s) && (s.conts[s.currpid].InReceive? || s.conts[s.currpid].InRecvtime?)
    ensures Inv(ClearMsg(SetCont(s, s.currpid, NoCont)))
  {
    var p := s.currpid;
    var t := ClearMsg(SetCont(s, p, NoCont));
    SameStateCore(s, p, s.procs[p].(hasmsg := false));
    CoreIgnores(SetProc(s, p, s.procs[p].(hasmsg := false)), t, -1);
    RestMove(s, t, p);
  }

  lemma FinishInv(s: KState)
    requires Inv(s) && Enabled(s, Finish)
    ensures Inv(FinishOp(s))
  {
    var c := s.conts[s.currpid];
    assert ContFits(s.procs[s.currpid], c, s.pools);
    if c.InReceive? || c.InRecvtime? {
      ClearFinishInv(s);
    } else if c.InGetbuf? {
      TakeBufInv(s, c.pool);
    } else {
      SetContInv(s, NoCont);
      if c.InKill? {
        KillRestInv(SetCont(s, s.currpid, NoCont), c.pid);
      } else {
        TickRestInv(SetCont(s, s.currpid, NoCont));
      }
    }
  }

  lemma SemdeleteInv(s: KState, sem: int)
    requires Inv(s) && Enabled(s, Semdelete(sem))
    ensures Inv(SemdeleteOp(s, sem))
  {
    hide Inv, Resched, ReleaseAll;
    if !BadSem(s, sem) { DrainInv(s, sem, Sem(false, Pos(s.sems[sem].count) + 1)); }
  }

  lemma SemresetInv(s: KState, sem: int, count: int)
    requires Inv(s) && Enabled(s, Semreset(sem, count))
    ensures Inv(SemresetOp(s, sem, count))
  {
    hide Inv, Resched, ReleaseAll;
    if !BadSem(s, sem) && count >= 0 {
      DrainInv(s, sem, Sem(true, count));
      ReleaseAllSems(s, sem);
    }
  }

  lemma NbgetbufInv(s: KState, pool: int)
    requires Inv(s) && Enabled(s, Nbgetbuf(pool))
    ensures Inv(NbgetbufOp(s, pool))
  {
    if NbgetbufOp(s, pool) != s { GetbufInv(s, pool); }
  }

  /** Every enabled step keeps the kernel invariant. */
  lemma StepInv(s: KState, op: Op)
    requires Inv(s) && Enabled(s, op)
    ensures Inv(Step(s, op))
  {
    hide Inv, Step;
    if op.Semcreate? || op.Create? || op.Mkbufpool? || op.Getbuf? || op.Nbgetbuf? || op.Freebuf? {
      StepInvTables(s, op);
    } else if op.WaitFor? || op.Signal? || op.Signaln? || op.Semdelete? || op.Semreset? || op.Resume? || op.Suspend?
      || op.Yield? {
      StepInvSync(s, op);
    } else if op.Sleepms? || op.Send? || op.Receive? || op.Recvclr? || op.Recvtime? {
      StepInvMessages(s, op);
    } else {
      StepInvTime(s, op);
    }
  }

  lemma StepInvTables(s: KState, op: Op)
    requires Inv(s) && Enabled(s, op)
    requires op.Semcreate? || op.Create? || op.Mkbufpool? || op.Getbuf? || op.Nbgetbuf? || op.Freebuf?
    ensures Inv(Step(s, op))
  {
    hide Inv, Enabled, SemcreateOp, CreateOp, MkbufpoolOp, GetbufOp, NbgetbufOp, FreebufOp;
    match op
    case Semcreate(count) => SemcreateInv(s, count);
    case Create(stack, prio) => CreateInv(s, stack, prio);
    case Mkbufpool(bufsiz, numbufs, mem) => MkbufpoolInv(s, bufsiz, numbufs, mem);
    case Getbuf(pool) => GetbufInv(s, pool);
    case Nbgetbuf(pool) => NbgetbufInv(s, pool);
    case Freebuf(pool, buf) => FreebufInv(s, pool, buf);
  }

  lemma YieldInv(s: KState)
    requires Inv(s)
    ensures Inv(Resched(s))
  {
    ReschedInv(s);
  }

  lemma StepInvSync(s: KState, op: Op)
    requires Inv(s) && Enabled(s, op)
    requires op.WaitFor? || op.Signal? || op.Signaln? || op.Semdelete? || op.Semreset? || op.Resume? || op.Suspend?
        || op.Yield?
    ensures Inv(Step(s, op))
  {
    hide Inv, Enabled, Resched, WaitOp, SignalOp, SignalnOp, SemdeleteOp, SemresetOp, ResumeOp, SuspendOp;
    match op
    case Yield => YieldInv(s);
    case WaitFor(sem) => WaitInv(s, sem);
    case Signal(sem) => SignalInv(s, sem);
    case Signaln(sem, count) => SignalnInv(s, sem, count);
    case Semdelete(sem) => SemdeleteInv(s, sem);
    case Semreset(sem, count) => SemresetInv(s, sem, count);
    case Resume(pid) => ResumeInv(s, pid);
    case Suspend(pid) => SuspendInv(s, pid);
  }

  lemma RecvclrInv(s: KState)
    requires Inv(s) && Enabled(s, Recvclr)
    ensures Inv(ClearMsg(s))
  {
    ClearMsgInv(s);
  }

  lemma StepInvMessages(s: KState, op: Op)
    requires Inv(s) && Enabled(s, op)
    requires op.Sleepms? || op.Send? || op.Receive? || op.Recvclr? || op.Recvtime?
    ensures Inv(Step(s, op))
  {
    hide Inv, Enabled, SleepmsOp, SendOp, ReceiveOp, RecvtimeOp, ClearMsg;
    match op
    case Sleepms(delay) => SleepmsInv(s, delay);
    case Send(pid, msg) => SendInv(s, pid, msg);
    case Receive => ReceiveInv(s);
    case Recvclr => RecvclrInv(s);
    case Recvtime(maxwait) => RecvtimeInv(s, maxwait);
  }

  lemma StepInvTime(s: KState, op: Op)
    requires Inv(s) && Enabled(s, op)
    requires op.Kill? || op.Start? || op.Stop? || op.Tick? || op.Finish?
    ensures Inv(Step(s, op))
  {
    hide Inv, Enabled, KillOp, TickOp, FinishOp, DeferStart, DeferStop;
    match op
    case Kill(pid) => KillInv(s, pid);
    case Start => DeferInv(s);
    case Stop => DeferInv(s);
    case Tick => TickInv(s);
    case Finish => FinishInv(s);
  }
}
