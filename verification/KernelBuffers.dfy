/**
 Buffer pools on the running kernel: `getbuf` waits on the pool's semaphore and then pops the
 chain in memory, `freebuf` pushes and signals.  The pools of the kernel model are exactly the
 chains in memory, so a granted `getbuf` never meets an empty one.
 */
module KernelBuffers {
  import opened Wrappers
  import opened KernelState
  import opened KernelSteps
  import opened KernelSafety
  import opened QueueTable
  import opened KernelFacts
  import opened KernelPools
  import opened BufChain
  import Kernel

  lemma WaitPools(s: KState, k: int)
    requires CurrInRange(s)
    ensures WaitOp(s, k).pools == s.pools
  {
    hide Resched;
  }

  /** A resumed `getbuf` finds a buffer. */
  lemma GrantFindsBuffer(s: KState, i: int)
    requires Inv(s) && s.conts[s.currpid] == InGetbuf(i)
    ensures CurrInRange(s) && 0 <= i < |s.pools| && s.pools[i].free != []
    ensures FinishOp(s) == SetCont(s, s.currpid, NoCont).(pools := s.pools[i := Popped(s.pools[i])])
  {
    InvRuns(s);
    TakeBufInv(s, i);
  }

  function FreeSem(s: KState): (r: Option<nat>)
    ensures r.Some? ==> r.value < NSEM
  {
    FindSem(s.sems, s.nextsem, 0)
  }

  lemma AddPoolCases(s: KState, bufsiz: int, numbufs: int, base: int)
    requires BP_MINB <= bufsiz <= BP_MAXB && 1 <= numbufs <= BP_MAXN && |s.pools| < NBPOOLS
    ensures SemcreateOp(s, numbufs).pools == s.pools && FindSem(s.sems, s.nextsem, 0) == FreeSem(s)
    ensures match FreeSem(s)
            case None => SemcreateOp(s, numbufs) == s == MkbufpoolOp(s, bufsiz, numbufs, Some(base))
            case Some(sem) =>
              MkbufpoolOp(s, bufsiz, numbufs, Some(base)) ==
                SemcreateOp(s, numbufs).(pools := s.pools + [Pool(sem, PoolBufs(base, bufsiz, numbufs), {}, 0)])
  {
    hide FindSem, PoolBufs;
  }

  lemma MkbufpoolCases(s: KState, bufsiz: int, numbufs: int, mem: Option<int>)
    requires Inv(s)
    ensures Inv(MkbufpoolOp(s, bufsiz, numbufs, mem))
    ensures var good := BP_MINB <= bufsiz <= BP_MAXB && 1 <= numbufs <= BP_MAXN && |s.pools| < NBPOOLS && mem.Some?;
            && (!good || FreeSem(s).None? ==> MkbufpoolOp(s, bufsiz, numbufs, mem) == s)
            && (good && FreeSem(s).Some? ==> |MkbufpoolOp(s, bufsiz, numbufs, mem).pools| == |s.pools| + 1)
  {
    MkbufpoolInv(s, bufsiz, numbufs, mem);
    hide FindSem, PoolBufs, Inv;
  }

  class BufferPools {
    const kernel: Kernel.Kernel
    const table: BufferTable

    /** The two parts are well formed, share no array, and agree on the pools. */
    ghost predicate Valid()
      reads this, kernel, kernel.queuetab, kernel.proctab, kernel.semtab, table, table.buftab
    {
      && kernel.Valid() && table.Valid() && table.pools == kernel.st.pools
      && (table.buftab as object) !in {kernel.queuetab as object, kernel.proctab, kernel.semtab}
    }

    constructor (memory: Words)
      ensures Valid() && kernel.st == Boot() && Inv(kernel.st) && table.words == memory
      ensures fresh(kernel) && fresh(kernel.queuetab) && fresh(kernel.proctab) && fresh(kernel.semtab)
      ensures fresh(table) && fresh(table.buftab)
    {
      kernel := new Kernel.Kernel();
      table := new BufferTable(memory);
    }

    /** mkbufpool.c; `mem` is what `getmem` answered, memory that no pool uses. */
    method Mkbufpool(bufsiz: int, numbufs: int, mem: Option<int>) returns (r: int)
      requires Valid() && Inv(kernel.st)
      requires mem.Some? && bufsiz >= 0 ==> mem.value > 0 && forall i, x {:trigger x in Buffers(table.pools[i])} ::
                 0 <= i < |table.pools| && x in Buffers(table.pools[i]) ==>
                   !(mem.value <= x < mem.value + numbufs * BufSize(bufsiz))
      modifies kernel, kernel.queuetab, kernel.proctab, kernel.semtab, table, table.buftab
      ensures Valid() && kernel.st == MkbufpoolOp(old(kernel.st), bufsiz, numbufs, mem) && Inv(kernel.st)
      ensures r == if |kernel.st.pools| > |old(kernel.st).pools| then |old(kernel.st).pools| else SYSERR
    {
      MkbufpoolCases(kernel.st, bufsiz, numbufs, mem);
      hide Inv, FindSem, BufSize, MkbufpoolOp, SemcreateOp, Separate;
      if bufsiz < BP_MINB || bufsiz > BP_MAXB || numbufs < 1 || numbufs > BP_MAXN || table.nbpools >= NBPOOLS {
        return SYSERR;
      }
      if mem.None? {
        return SYSERR;
      }
      r := AddPool(bufsiz, numbufs, mem.value);
    }

    /** mkbufpool.c once the memory is there. */
    method AddPool(bufsiz: int, numbufs: int, base: int) returns (r: int)
      requires Valid() && BP_MINB <= bufsiz <= BP_MAXB && 1 <= numbufs <= BP_MAXN && table.nbpools < NBPOOLS && base > 0
      requires forall i, x {:trigger x in Buffers(table.pools[i])} ::
                 0 <= i < |table.pools| && x in Buffers(table.pools[i]) ==>
                   !(base <= x < base + numbufs * BufSize(bufsiz))
      modifies kernel, kernel.queuetab, kernel.proctab, kernel.semtab, table, table.buftab
      ensures Valid() && kernel.st == MkbufpoolOp(old(kernel.st), bufsiz, numbufs, Some(base))
      ensures r == if FreeSem(old(kernel.st)).None? then SYSERR else |old(kernel.st).pools|
    {
      AddPoolCases(kernel.st, bufsiz, numbufs, base);
      hide FindSem, BufSize, MkbufpoolOp, SemcreateOp, Separate, Chain, PoolBufs, FreeSem;
      ghost var s := kernel.st;
      var sem := kernel.Semcreate(numbufs);
      assert kernel.st.pools == s.pools;
      if sem == SYSERR {
        return SYSERR;
      }
      var made := table.Mkbufpool(bufsiz, numbufs, Some(base), Some(sem));
      kernel.st := kernel.st.(pools := table.pools);
      return made.value;
    }

    /** getbuf.c up to the wait, which may switch away. */
    method Getbuf(poolid: int) returns (r: int)
      requires Valid() && Inv(kernel.st) && Enabled(kernel.st, Op.Getbuf(poolid))
      modifies kernel, kernel.queuetab, kernel.proctab, kernel.semtab
      ensures Valid() && kernel.st == GetbufOp(old(kernel.st), poolid) && Inv(kernel.st)
      ensures r == if 0 <= poolid < |old(kernel.st).pools| then OK else SYSERR
    {
      hide Inv, CanWait, WaitOp, Separate;
      GetbufInv(kernel.st, poolid);
      if poolid < 0 || poolid >= table.nbpools {
        return SYSERR;
      }
      var sem := table.buftab[poolid].bpsem;
      assert sem == kernel.st.pools[poolid].sem;
      GetbufMayWait(kernel.st, poolid);
      kernel.st := SetCont(kernel.st, kernel.st.currpid, InGetbuf(poolid));
      WaitPools(kernel.st, sem);
      var _ := kernel.Wait(sem);
      return OK;
    }

    /** getbuf.c behind the wait: pop the chain and write the pool number in the header. */
    method GetbufRest(poolid: int) returns (buf: int)
      requires Valid() && Inv(kernel.st) && kernel.st.conts[kernel.st.currpid] == InGetbuf(poolid)
      modifies kernel, table, table.buftab
      ensures Valid() && kernel.st == FinishOp(old(kernel.st)) && Inv(kernel.st)
      ensures 0 <= poolid < |old(kernel.st).pools| && old(kernel.st).pools[poolid].free != []
      ensures buf == old(kernel.st).pools[poolid].free[0] + 4
    {
      hide Inv, Separate, PoolOK, FinishOp, Popped;
      GrantFindsBuffer(kernel.st, poolid);
      FinishInv(kernel.st);
      var r := table.Getbuf(poolid);
      kernel.st := FinishOp(kernel.st);
      return r.value;
    }

    /** nbgetbuf: an error instead of blocking. */
    method Nbgetbuf(poolid: int) returns (r: int)
      requires Valid() && Inv(kernel.st) && Enabled(kernel.st, Op.Nbgetbuf(poolid))
      modifies kernel, kernel.queuetab, kernel.proctab, kernel.semtab
      ensures Valid() && kernel.st == NbgetbufOp(old(kernel.st), poolid) && Inv(kernel.st)
      ensures r == SYSERR ==> kernel.st == old(kernel.st)
      ensures kernel.st.currpid == old(kernel.st).currpid
    {
      NbgetbufCases(kernel.st, poolid);
      hide Inv;
      if poolid < 0 || poolid >= table.nbpools {
        return SYSERR;
      }
      var sem := table.buftab[poolid].bpsem;
      if sem < 0 || sem >= NSEM || !kernel.semtab[sem].used || kernel.semtab[sem].count <= 0 {
        return SYSERR;
      }
      r := Getbuf(poolid);
    }

    /** freebuf.c: push on the chain the header names and signal the pool's semaphore. */
    method Freebuf(bufaddr: int) returns (r: int)
      requires Valid() && Inv(kernel.st) && kernel.st.conts[kernel.st.currpid].NoCont? && bufaddr - 4 in table.words
      requires var i := table.words[bufaddr - 4]; 0 <= i < |table.pools| ==> bufaddr - 4 in table.pools[i].lent
      modifies kernel, kernel.queuetab, kernel.proctab, kernel.semtab, table, table.buftab
      ensures Valid() && Inv(kernel.st)
      ensures var i := old(table.words)[bufaddr - 4];
              if 0 <= i < |old(kernel.st).pools| then r == OK && kernel.st == FreebufOp(old(kernel.st), i, bufaddr - 4)
              else r == SYSERR && kernel.st == old(kernel.st)
    {
      hide Inv, Separate, PoolOK, SignalOp, FreebufOp, CanSignal, Pushed;
      var poolid := table.words[bufaddr - 4];
      ghost var s := kernel.st;
      if 0 <= poolid < |s.pools| { FreebufCase(s, poolid, bufaddr - 4); }
      var ok := table.Freebuf(bufaddr);
      if !ok {
        return SYSERR;
      }
      FreebufMaySignal(s, table.pools);
      SignalPool(poolid, s);
      return OK;
    }

    /** The signal of `freebuf`, once the buffer is on the chain. */
    method SignalPool(poolid: int, ghost s: KState)
      requires kernel.Valid() && table.Valid() && kernel.st == s && 0 <= poolid < |table.pools|
      requires (table.buftab as object) !in {kernel.queuetab as object, kernel.proctab, kernel.semtab}
      requires CanSignal(s.(pools := table.pools))
      modifies kernel, kernel.queuetab, kernel.proctab, kernel.semtab
      ensures Valid() && kernel.st == SignalOp(s.(pools := table.pools), table.pools[poolid].sem)
    {
      hide Separate, SignalOp, CanSignal, PoolOK, Denotes;
      var sem := table.buftab[poolid].bpsem;
      PoolSem(table.words, table.buftab[poolid], table.pools[poolid], poolid);
      ghost var s1 := s.(pools := table.pools);
      EnterSignal(s1, 0);
      SignalPools(s1, sem);
      kernel.st := s1;
      var _ := kernel.Signal(sem);
    }
  }

  lemma PoolSem(words: Words, e: BpEntry, b: Pool, i: int)
    requires PoolOK(words, e, b, i)
    ensures e.bpsem == b.sem
  {
  }

  lemma FreebufCase(s: KState, i: int, buf: int)
    requires Inv(s) && s.conts[s.currpid].NoCont? && 0 <= i < |s.pools| && buf in s.pools[i].lent
    ensures CurrInRange(s) && Inv(FreebufOp(s, i, buf))
    ensures var pools := s.pools[i := Pushed(s.pools[i], buf)];
            FreebufOp(s, i, buf) == SignalOp(s.(pools := pools), pools[i].sem)
  {
    InvRuns(s);
    FreebufInv(s, i, buf);
  }

  lemma NbgetbufCases(s: KState, i: int)
    requires Inv(s) && Enabled(s, Op.Nbgetbuf(i))
    ensures CurrInRange(s) && Inv(NbgetbufOp(s, i)) && NbgetbufOp(s, i).currpid == s.currpid
    ensures var go := 0 <= i < |s.pools| && !BadSem(s, s.pools[i].sem) && s.sems[s.pools[i].sem].count > 0;
            if go then Enabled(s, Op.Getbuf(i)) && NbgetbufOp(s, i) == GetbufOp(s, i) else NbgetbufOp(s, i) == s
  {
    InvRuns(s);
    NbgetbufInv(s, i);
  }
}
