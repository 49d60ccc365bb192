/**
 The kernel as the C code has it: fixed tables updated in place, one method per kernel
 function.  Each method is proved to act on the abstract state `st` exactly as the function
 of the same name in KernelState; `Valid` ties `st` to the tables.
 */
module Kernel {
  import opened KernelState
  import opened KernelInvariant
  import opened KernelSteps
  import opened KernelSafety
  import opened QueueTable
  import opened KernelFacts
  import K = KernelState

  class Kernel {
    const queuetab: array<QEntry>
    const proctab: array<Proc>
    const semtab: array<Sem>
    var currpid: int
    var preempt: int
    var ndefers: int
    var attempt: bool
    var nextpid: nat
    var nextsem: nat
    var nextqid: int
    var readylist: int
    var sleepq: int

    /** The abstract state the tables denote. */
    ghost var st: KState

    ghost predicate Valid()
      reads this, queuetab, proctab, semtab
    {
      && queuetab.Length == NQENT && proctab.Length == NPROC && semtab.Length == NSEM
      && proctab[..] == st.procs && semtab[..] == st.sems
      && Denotes(queuetab[..], st.keys, st.lists)
      && currpid == st.currpid && preempt == st.preempt && ndefers == st.ndefers && attempt == st.attempt
      && nextpid == st.nextpid && nextsem == st.nextsem
      && readylist == QueueHead(READYQ) && sleepq == QueueHead(SLEEPQ)
    }

    method IsBadPid(pid: int) returns (r: bool)
      requires Valid()
      ensures r == BadPid(st, pid)
    {
      r := pid < 0 || pid >= NPROC || proctab[pid].state.Free?;
    }

    // ---- queues --------------------------------------------------------------------

    /** The link assignments shared by `enqueue`, `insert` and `insertd`. */
    method LinkAt(pid: int, prev: int, next: int, key: int, ghost k: int, ghost i: nat)
      requires Valid()
      requires 0 <= pid < NPROC && OnNoList(st.lists, pid) && 0 <= k < NLISTS && i <= |st.lists[k]|
      requires prev == Node(QueueHead(k), st.lists[k], i - 1) && next == Node(QueueHead(k), st.lists[k], i)
      modifies this`st, queuetab
      ensures Valid()
      ensures st == SetList(old(st), k, InsertAt(old(st).lists[k], i, pid)).(keys := old(st).keys[pid := key])
    {
      ghost var tab := queuetab[..];
      DenotesLink(tab, st.keys, st.lists, k, i, pid, key);
      hide Denotes, Node, InsertAt, OnNoList;
      queuetab[pid] := queuetab[pid].(qnext := next);
      queuetab[pid] := queuetab[pid].(qprev := prev);
      queuetab[pid] := queuetab[pid].(qkey := key);
      queuetab[prev] := queuetab[prev].(qnext := pid);
      queuetab[next] := queuetab[next].(qprev := pid);
      assert queuetab[..] == LinkBetween(tab, pid, prev, next, key);
      st := SetList(st, k, InsertAt(st.lists[k], i, pid)).(keys := st.keys[pid := key]);
    }

    /** queue.c: link `pid` in front of the tail. */
    method Enqueue(pid: int, q: int) returns (r: int)
      requires Valid()
      requires !BadQid(q) ==> IsQueue(q)
      requires !BadQid(q) && !BadPid(st, pid) ==> OnNoList(st.lists, pid)
      modifies this`st, queuetab
      ensures Valid()
      ensures if BadQid(q) || BadPid(old(st), pid) then r == SYSERR && st == old(st)
              else r == pid && st == K.Enqueue(old(st), pid, ListOf(q))
    {
      var bad := IsBadPid(pid);
      if BadQid(q) || bad {
        return SYSERR;
      }
      ghost var k := ListOf(q);
      ListOfHead(q);
      ghost var l := st.lists[k];
      FirstNode(queuetab[..], st.keys, st.lists, k);
      var tail := q + 1;
      var prev := queuetab[tail].qprev;
      assert st.keys[pid := queuetab[pid].qkey] == st.keys;
      assert InsertAt(l, |l|, pid) == l + [pid];
      LinkAt(pid, prev, tail, queuetab[pid].qkey, k, |l|);
      return pid;
    }

    /** getitem.c: unlink `pid` from wherever it is. */
    method GetItem(pid: int, ghost k: int) returns (r: int)
      requires Valid()
      requires 0 <= k < NLISTS && pid in st.lists[k]
      modifies this`st, queuetab
      ensures Valid() && r == pid
      ensures st == K.Unlink(old(st), pid, k) && OnNoList(st.lists, pid)
    {
      ghost var tab := queuetab[..];
      DenotesUnlink(tab, st.keys, st.lists, k, pid);
      hide Denotes, Remove;
      var next := queuetab[pid].qnext;
      var prev := queuetab[pid].qprev;
      queuetab[prev] := queuetab[prev].(qnext := next);
      queuetab[next] := queuetab[next].(qprev := prev);
      assert queuetab[..] == Bypass(tab, prev, next);
      st := K.Unlink(st, pid, k);
      return pid;
    }

    method IsEmpty(q: int) returns (r: bool)
      requires Valid() && IsQueue(q)
      ensures r == (st.lists[ListOf(q)] == [])
      ensures !r ==> queuetab[q].qnext == st.lists[ListOf(q)][0]
    {
      ListOfHead(q);
      FirstNode(queuetab[..], st.keys, st.lists, ListOf(q));
      r := queuetab[q].qnext >= NPROC;
    }

    method GetFirst(q: int) returns (r: int)
      requires Valid() && IsQueue(q)
      modifies this`st, queuetab
      ensures Valid()
      ensures var l := old(st).lists[ListOf(q)];
              if l == [] then r == EMPTY && st == old(st)
              else r == l[0] && st == SetList(old(st), ListOf(q), l[1..]) && OnNoList(st.lists, r)
    {
      ListOfHead(q);
      var empty := IsEmpty(q);
      if empty {
        return EMPTY;
      }
      ghost var k := ListOf(q);
      RemoveFirst(st.lists[k]);
      r := GetItem(queuetab[q].qnext, k);
    }

    method Dequeue(q: int) returns (r: int)
      requires Valid()
      requires !BadQid(q) ==> IsQueue(q)
      modifies this`st, queuetab
      ensures Valid()
      ensures if BadQid(q) then r == SYSERR && st == old(st)
              else var l := old(st).lists[ListOf(q)];
                   if l == [] then r == EMPTY && st == old(st)
                   else && r == l[0] && 0 <= r < NPROC
                        && st == SetList(old(st), ListOf(q), l[1..]) && OnNoList(st.lists, r)
    {
      if BadQid(q) {
        return SYSERR;
      }
      ListOfHead(q);
      var empty := IsEmpty(q);
      if empty {
        return EMPTY;
      }
      ghost var l := st.lists[ListOf(q)];
      FirstNode(queuetab[..], st.keys, st.lists, ListOf(q));
      r := GetFirst(q);
      ghost var tab := queuetab[..];
      queuetab[r] := queuetab[r].(qprev := EMPTY);
      queuetab[r] := queuetab[r].(qnext := EMPTY);
      DenotesLoose(tab, queuetab[..], st.keys, st.lists, r);
    }

    /** The walk of `insert`: past every key at least as large; the tail sentinel stops it. */
    method KeySearch(q: int, key: int) returns (curr: int, ghost i: nat)
      requires Valid() && MINKEY < key && IsQueue(q)
      ensures var l := st.lists[ListOf(q)];
              i == KeyPos(l, st.keys, key) && curr == Node(q, l, i) && queuetab[curr].qprev == Node(q, l, i - 1)
    {
      ghost var tab, keys, lists, k := queuetab[..], st.keys, st.lists, ListOf(q);
      ListOfHead(q);
      i := 0;
      KeyWalkStart(tab, keys, lists, k, key);
      hide Denotes, KeyWalk, Node, KeyPos, IsQueue, ListOf, QueueHead;
      curr := queuetab[q].qnext;
      while queuetab[curr].qkey >= key
        invariant 0 <= curr < NQENT && i <= |lists[k]| && KeyWalk(keys, lists[k], k, key, curr, i)
        decreases |lists[k]| - i
      {
        KeyWalkNext(tab, keys, lists, k, key, curr, i);
        curr := queuetab[curr].qnext;
        i := i + 1;
      }
      KeyWalkStop(tab, keys, lists, k, key, curr, i);
    }

    /** insert.c: insert in descending key order, behind equal keys. */
    method Insert(pid: int, q: int, key: int) returns (r: int)
      requires Valid() && MINKEY < key
      requires !BadQid(q) ==> IsQueue(q)
      requires !BadQid(q) && !BadPid(st, pid) ==> OnNoList(st.lists, pid)
      modifies this`st, queuetab
      ensures Valid()
      ensures if BadQid(q) || BadPid(old(st), pid) then r == SYSERR && st == old(st)
              else var l := old(st).lists[ListOf(q)];
                   var l' := InsertAt(l, KeyPos(l, old(st).keys, key), pid);
                   r == OK && st == SetList(old(st), ListOf(q), l').(keys := old(st).keys[pid := key])
    {
      var bad := IsBadPid(pid);
      if BadQid(q) || bad {
        return SYSERR;
      }
      ListOfHead(q);
      hide Denotes, KeyPos, InsertAt;
      var curr, i := KeySearch(q, key);
      LinkAt(pid, queuetab[curr].qprev, curr, key, ListOf(q), i);
      return OK;
    }

    /** The walk of `insertd`: spend the delay on the entries passed. */
    method DeltaSearch(delay: int) returns (prev: int, next: int, key: int, ghost i: nat)
      requires Valid()
      ensures var l := st.lists[SLEEPQ];
              i <= |l| && DeltaPos(l, st.keys, delay) == (i, key) && prev == Node(sleepq, l, i - 1)
                && next == Node(sleepq, l, i)
    {
      ghost var tab, keys, lists := queuetab[..], st.keys, st.lists;
      i, key := 0, delay;
      DeltaWalkStart(tab, keys, lists, delay);
      DeltaWalkRange(keys, lists[SLEEPQ], delay, sleepq, tab[sleepq].qnext, delay, 0);
      hide Denotes, DeltaWalk, DeltaPos, W32, Node;
      prev := sleepq;
      next := queuetab[sleepq].qnext;
      while next != sleepq + 1 && queuetab[next].qkey <= key
        invariant 0 <= next < NQENT && i <= |lists[SLEEPQ]| && DeltaWalk(keys, lists[SLEEPQ], delay, prev, next, key, i)
        decreases |lists[SLEEPQ]| - i
      {
        DeltaWalkNext(tab, keys, lists, delay, prev, next, key, i);
        DeltaWalkRange(keys, lists[SLEEPQ], delay, next, tab[next].qnext, W32(key - tab[next].qkey), i + 1);
        key := W32(key - queuetab[next].qkey);
        prev := next;
        next := queuetab[next].qnext;
        i := i + 1;
      }
      DeltaWalkStop(tab, keys, lists, delay, prev, next, key, i);
    }

    /** insertd.c: insert in a delta list; the successor gives up the delay of the new entry. */
    method Insertd(pid: int, q: int, delay: int) returns (r: int)
      requires Valid() && (q == sleepq || BadQid(q))
      requires !BadPid(st, pid) ==> OnNoList(st.lists, pid)
      modifies this`st, queuetab
      ensures Valid()
      ensures if BadQid(q) || BadPid(old(st), pid) then r == SYSERR && st == old(st)
              else r == OK && st == K.InsertD(old(st), pid, delay)
    {
      var bad := IsBadPid(pid);
      if BadQid(q) || bad {
        return SYSERR;
      }
      FirstNode(queuetab[..], st.keys, st.lists, SLEEPQ);
      hide Denotes, DeltaPos, W32, InsertAt;
      var prev, next, key, i := DeltaSearch(delay);
      LinkAt(pid, prev, next, key, SLEEPQ, i);
      if next != q + 1 {
        KeyEntry(next);
        SetKey(next, W32(queuetab[next].qkey - key));
      }
      return OK;
    }

    lemma KeyEntry(p: int)
      requires Valid() && 0 <= p < NPROC
      ensures queuetab[p].qkey == st.keys[p]
    {
    }

    /** One assignment to the key of a process entry. */
    method SetKey(p: int, key: int)
      requires Valid() && 0 <= p < NPROC
      modifies this`st, queuetab
      ensures Valid() && st == old(st).(keys := old(st).keys[p := key])
    {
      ghost var tab := queuetab[..];
      queuetab[p] := queuetab[p].(qkey := key);
      DenotesKeys(tab, queuetab[..], st.keys, st.keys[p := key], st.lists, p);
      st := st.(keys := st.keys[p := key]);
    }

    // ---- boot ----------------------------------------------------------------------

    /** newqueue.c: the next two free entries become the head and tail of an empty queue. */
    method NewQueue() returns (q: int)
      requires queuetab.Length == NQENT && NPROC <= nextqid && nextqid + 1 < NQENT
      modifies this`nextqid, queuetab
      ensures q == old(nextqid) && nextqid == q + 2
      ensures Linked(queuetab[..], q, [])
      ensures forall x :: 0 <= x < NQENT && x != q && x != q + 1 ==> queuetab[x] == old(queuetab[x])
    {
      q := nextqid;
      nextqid := nextqid + 2;
      queuetab[q] := queuetab[q].(qnext := q + 1);
      queuetab[q] := queuetab[q].(qprev := EMPTY);
      queuetab[q] := queuetab[q].(qkey := MAXKEY);
      queuetab[q + 1] := queuetab[q + 1].(qnext := EMPTY);
      queuetab[q + 1] := queuetab[q + 1].(qprev := q);
      queuetab[q + 1] := queuetab[q + 1].(qkey := MINKEY);
    }

    /** initialize.c: empty tables, the null process running, one queue per semaphore, then
        the ready list and the sleep queue. */
    constructor ()
      ensures Valid() && st == Boot() && Inv(st)
      ensures fresh(queuetab) && fresh(proctab) && fresh(semtab)
    {
      queuetab := new QEntry[NQENT](i => QEntry(0, 0, 0));
      proctab := new Proc[NPROC](i => Proc(if i == NULLPROC then Curr else Free, 0, 0, 0, false, 0));
      semtab := new Sem[NSEM](i => Sem(false, 0));
      currpid, preempt, ndefers, attempt := NULLPROC, QUANTUM, 0, false;
      nextpid, nextsem, nextqid := 1, 0, NPROC;
      st := Boot();
      new;
      assert proctab[..] == Boot().procs && semtab[..] == Boot().sems;
      hide Inv, Denotes;
      BootQueues();
      BootInv();
    }

    /** One queue per semaphore, then the ready list and the sleep queue. */
    method BootQueues()
      requires queuetab.Length == NQENT && nextqid == NPROC && forall p :: 0 <= p < NPROC ==> queuetab[p].qkey == 0
      modifies this`nextqid, this`readylist, this`sleepq, queuetab
      ensures Denotes(queuetab[..], Boot().keys, Boot().lists)
      ensures readylist == QueueHead(READYQ) && sleepq == QueueHead(SLEEPQ)
    {
      hide Linked, Denotes, Boot;
      SemQueues();
      readylist := NextEmpty(READYQ);
      sleepq := NextEmpty(SLEEPQ);
      BootDenotes(queuetab[..]);
    }

    /** One empty queue per semaphore. */
    method SemQueues()
      requires queuetab.Length == NQENT && nextqid == NPROC
      modifies this`nextqid, queuetab
      ensures nextqid == QueueHead(NSEM)
      ensures forall j :: 0 <= j < NSEM ==> Linked(queuetab[..], QueueHead(j), [])
      ensures forall p :: 0 <= p < NPROC ==> queuetab[p] == old(queuetab[p])
    {
      hide Linked;
      var k := 0;
      while k < NSEM
        invariant 0 <= k <= NSEM && nextqid == QueueHead(k)
        invariant forall p :: 0 <= p < NPROC ==> queuetab[p] == old(queuetab[p])
        invariant forall j :: 0 <= j < k ==> Linked(queuetab[..], QueueHead(j), [])
      {
        var _ := NextEmpty(k);
        k := k + 1;
      }
    }

    /** One more empty queue leaves the earlier ones as they are. */
    method NextEmpty(ghost k: int) returns (q: int)
      requires queuetab.Length == NQENT && 0 <= k < NLISTS && nextqid == QueueHead(k)
      requires forall j :: 0 <= j < k ==> Linked(queuetab[..], QueueHead(j), [])
      modifies this`nextqid, queuetab
      ensures q == QueueHead(k) && nextqid == QueueHead(k + 1)
      ensures forall j :: 0 <= j <= k ==> Linked(queuetab[..], QueueHead(j), [])
      ensures forall p :: 0 <= p < NPROC ==> queuetab[p] == old(queuetab[p])
    {
      ghost var tab := queuetab[..];
      q := NewQueue();
      forall j | 0 <= j < k
        ensures Linked(queuetab[..], QueueHead(j), [])
      {
        LinkedFrame(tab, queuetab[..], QueueHead(j), []);
      }
    }

    // ---- table entries -------------------------------------------------------------

    method SetEntry(p: int, pr: Proc)
      requires Valid() && 0 <= p < NPROC
      modifies this`st, proctab
      ensures Valid() && st == SetProc(old(st), p, pr)
    {
      proctab[p] := pr;
      st := SetProc(st, p, pr);
      assert proctab[..] == st.procs;
      hide Denotes;
    }

    method SetSem(sem: int, e: Sem)
      requires Valid() && 0 <= sem < NSEM
      modifies this`st, semtab
      ensures Valid() && st == K.SetSem(old(st), sem, e)
    {
      semtab[sem] := e;
      st := K.SetSem(st, sem, e);
      assert semtab[..] == st.sems;
      hide Denotes;
    }

    // ---- scheduling ----------------------------------------------------------------

    /** ready.c without the reschedule. */
    method Ready(pid: int) returns (r: int)
      requires Valid()
      requires !BadPid(st, pid) ==> OnNoList(st.lists, pid) && st.procs[pid].prio >= 0
      modifies this`st, queuetab, proctab
      ensures Valid()
      ensures if BadPid(old(st), pid) then r == SYSERR && st == old(st) else r == OK && st == MakeReady(old(st), pid)
    {
      var bad := IsBadPid(pid);
      if bad {
        return SYSERR;
      }
      ListOfHead(readylist);
      hide Denotes, KeyPos, InsertAt;
      SetEntry(pid, proctab[pid].(state := PrState.Ready));
      var _ := Insert(pid, readylist, proctab[pid].prio);
      return OK;
    }

    /** resched.c: hand the CPU to the first ready process unless the current one outranks it. */
    method Resched()
      requires Valid() && Core(st) && ndefers >= 0 && (ndefers > 0 ==> st.procs[st.currpid].state.Curr?)
      modifies this, queuetab, proctab
      ensures Valid() && st == K.Resched(old(st))
      ensures Core(st) && Running(st)
    {
      ReschedCore(st);
      if ndefers > 0 {
        attempt := true;
        st := st.(attempt := true);
        return;
      }
      FirstNode(queuetab[..], st.keys, st.lists, READYQ);
      if proctab[currpid].state.Curr? {
        FirstKeyEntry();
        if proctab[currpid].prio > queuetab[queuetab[readylist].qnext].qkey {
          return;
        }
        Lift(st, st.currpid);
        MakeReadyCore(st, st.currpid);
        OffLists(st, st.currpid);
        var _ := Ready(currpid);
      }
      DispatchCore(st);
      ListOfHead(readylist);
      Switch();
    }

    /** The end of `resched`: the first ready process becomes current. */
    method Switch()
      requires Valid() && st.lists[READYQ] != []
      modifies this, queuetab, proctab
      ensures Valid() && st == Dispatch(old(st))
    {
      ListOfHead(readylist);
      hide Denotes;
      currpid := Dequeue(readylist);
      st := st.(currpid := currpid);
      SetEntry(currpid, proctab[currpid].(state := Curr));
      preempt := QUANTUM;
      st := st.(preempt := QUANTUM);
    }

    // ---- semaphores ----------------------------------------------------------------

    /** wait.c */
    method Wait(sem: int) returns (r: int)
      requires Valid() && CanWait(st, sem)
      modifies this, queuetab, proctab, semtab
      ensures Valid() && st == WaitOp(old(st), sem)
      ensures r == if BadSem(old(st), sem) then SYSERR else OK
    {
      hide CanWait, CoreX, Denotes, K.Resched, OnNoList;
      EnterWait(st, sem);
      if sem < 0 || sem >= NSEM || !semtab[sem].used {
        return SYSERR;
      }
      SetSem(sem, semtab[sem].(count := semtab[sem].count - 1));
      if semtab[sem].count < 0 {
        SetEntry(currpid, proctab[currpid].(state := PrState.Wait, sem := sem));
        var _ := Enqueue(currpid, QueueHead(sem));
        Resched();
      }
      return OK;
    }

    /** `ready(dequeue(q), RESCHED_NO)`. */
    method Release(q: int)
      requires Valid() && Core(st) && IsQueue(q) && ListOf(q) != READYQ && st.lists[ListOf(q)] != []
      modifies this`st, queuetab, proctab
      ensures Valid() && st == ReleaseFirst(old(st), ListOf(q)) && Core(st)
    {
      ListOfHead(q);
      FirstFacts(st, ListOf(q));
      ReleaseFirstCore(st, ListOf(q));
      hide CoreX, Denotes, MakeReady;
      var pid := Dequeue(q);
      var _ := Ready(pid);
    }

    /** signal.c */
    method Signal(sem: int) returns (r: int)
      requires Valid() && CanSignal(st)
      modifies this, queuetab, proctab, semtab
      ensures Valid() && st == SignalOp(old(st), sem)
      ensures r == if BadSem(old(st), sem) then SYSERR else OK
    {
      hide CoreX, SemOK, Denotes, SignalOne, K.Resched;
      EnterSignal(st, sem);
      if sem < 0 || sem >= NSEM || !semtab[sem].used {
        return SYSERR;
      }
      var n := semtab[sem].count;
      SignalRound(sem);
      if n < 0 {
        Resched();
      }
      return OK;
    }

    /** One round of the loops in signaln.c. */
    method SignalRound(sem: int)
      requires Valid() && Core(st) && SemOK(st) && 0 <= sem < NSEM && st.sems[sem].used
      modifies this`st, queuetab, proctab, semtab
      ensures Valid() && st == SignalOne(old(st), sem)
    {
      SemQueue(st, sem);
      var n := semtab[sem].count;
      CoreIgnores(st, SetCount(st, sem, n + 1), -1);
      hide CoreX, SemOK, Denotes, ReleaseFirst;
      SetSem(sem, semtab[sem].(count := n + 1));
      if n < 0 {
        Release(QueueHead(sem));
      }
    }

    /** The loop of signaln.c. */
    method SignalRounds(sem: int, count: nat)
      requires Valid() && Core(st) && Rest(st) && 0 <= sem < NSEM && st.sems[sem].used && !Private(st, sem)
      modifies this`st, queuetab, proctab, semtab
      ensures Valid() && st == SignalMany(old(st), sem, count)
    {
      hide CoreX, Rest, Denotes, Private, SignalOne;
      var n := count;
      while n > 0
        invariant n >= 0 && Valid() && Core(st) && Rest(st) && st.sems[sem].used && !Private(st, sem)
        invariant SignalMany(st, sem, n) == SignalMany(old(st), sem, count)
      {
        SignalOneRest(st, sem);
        SamePrivate(st, SignalOne(st, sem), sem);
        RestCounts(st);
        SignalRound(sem);
        n := n - 1;
      }
    }

    /** signaln.c */
    method Signaln(sem: int, count: int) returns (r: int)
      requires Valid() && Inv(st) && Enabled(st, Op.Signaln(sem, count))
      modifies this, queuetab, proctab, semtab
      ensures Valid() && st == SignalnOp(old(st), sem, count)
      ensures r == if BadSem(old(st), sem) || count < 0 then SYSERR else OK
    {
      EnterSem(st, sem);
      if !BadSem(st, sem) && count >= 0 { SignalManyRest(st, sem, count); }
      hide Inv, Enabled, CoreX, Rest, Running, Denotes, Private, SignalMany, K.Resched;
      if sem < 0 || sem >= NSEM || count < 0 || !semtab[sem].used {
        return SYSERR;
      }
      SignalRounds(sem, count);
      Resched();
      return OK;
    }

    /** The drain loop shared by semdelete.c and semreset.c: `ready(getfirst(q), RESCHED_NO)`. */
    method ReleaseUnqueued(q: int)
      requires Valid() && Core(st) && IsQueue(q) && ListOf(q) != READYQ && st.lists[ListOf(q)] != []
      modifies this`st, queuetab, proctab
      ensures Valid() && st == ReleaseFirst(old(st), ListOf(q)) && Core(st)
    {
      ListOfHead(q);
      FirstFacts(st, ListOf(q));
      ReleaseFirstCore(st, ListOf(q));
      hide CoreX, Denotes, MakeReady;
      var pid := GetFirst(q);
      var _ := Ready(pid);
    }

    /** The loop of semdelete.c, on an entry already marked free. */
    method DrainDeleted(sem: int, ghost e: Sem)
      requires Valid() && Core(st) && 0 <= sem < NSEM && !st.sems[sem].used
      requires |st.lists[sem]| == Pos(-st.sems[sem].count)
      requires e == Sem(false, Pos(st.sems[sem].count) + 1)
      modifies this`st, queuetab, proctab, semtab
      ensures Valid() && Core(st)
      ensures st == ReleaseAll(old(st), sem).(sems := old(st).sems[sem := e])
    {
      hide CoreX, Denotes, ReleaseFirst, ReleaseAll;
      ghost var s0 := st;
      var n := semtab[sem].count;
      Recount(sem, n + 1);
      DrainIgnoresSems(s0, sem, st.sems);
      while n < 0
        invariant Valid() && Core(st) && st.sems == s0.sems[sem := Sem(false, n + 1)]
        invariant |st.lists[sem]| == Pos(-n) && Pos(n) == Pos(s0.sems[sem].count)
        invariant ReleaseAll(st, sem) == ReleaseAll(s0, sem).(sems := st.sems)
        decreases -n
      {
        DrainStep(st, sem);
        ReleaseUnqueued(QueueHead(sem));
        n := semtab[sem].count;
        DrainIgnoresSems(st, sem, st.sems[sem := Sem(false, n + 1)]);
        Recount(sem, n + 1);
      }
      DrainDone(st, sem);
    }

    /** `scount = n`, which the scheduler does not notice. */
    method Recount(sem: int, n: int)
      requires Valid() && Core(st) && 0 <= sem < NSEM
      modifies this`st, semtab
      ensures Valid() && Core(st) && st == SetCount(old(st), sem, n)
    {
      CoreIgnores(st, SetCount(st, sem, n), -1);
      hide CoreX, Denotes;
      SetSem(sem, semtab[sem].(count := n));
    }

    /** `sstate = S_FREE`, which neither the scheduler nor the drain notices. */
    method MarkFree(sem: int)
      requires Valid() && Core(st) && 0 <= sem < NSEM
      modifies this`st, semtab
      ensures Valid() && Core(st) && st == old(st).(sems := old(st).sems[sem := Sem(false, old(st).sems[sem].count)])
      ensures ReleaseAll(st, sem) == ReleaseAll(old(st), sem).(sems := st.sems)
    {
      ghost var sems := st.sems[sem := Sem(false, st.sems[sem].count)];
      DrainIgnoresSems(st, sem, sems);
      CoreIgnores(st, st.(sems := sems), -1);
      hide CoreX, Denotes, ReleaseAll;
      SetSem(sem, semtab[sem].(used := false));
    }

    /** semdelete.c without the checks; `e` is the entry it leaves. */
    method DeleteUsed(sem: int, ghost e: Sem)
      requires Valid() && Core(st) && 0 <= sem < NSEM && |st.lists[sem]| == Pos(-st.sems[sem].count)
      requires e == Sem(false, Pos(st.sems[sem].count) + 1)
      requires st.ndefers >= 0
      requires st.ndefers > 0 ==> var t := ReleaseAll(st, sem); CurrInRange(t) && t.procs[t.currpid].state.Curr?
      modifies this, queuetab, proctab, semtab
      ensures Valid() && st == K.Resched(K.SetSem(ReleaseAll(old(st), sem), sem, e))
    {
      ReleaseAllSems(st, sem);
      Overwrite(st.sems, sem, Sem(false, st.sems[sem].count), e);
      hide CoreX, Denotes, ReleaseAll, K.Resched, Pos;
      ghost var t := ReleaseAll(st, sem);
      MarkFree(sem);
      DrainDeleted(sem, e);
      assert st == K.SetSem(t, sem, e);
      Resched();
    }

    /** semdelete.c */
    method Semdelete(sem: int) returns (r: int)
      requires Valid() && Inv(st) && Enabled(st, Op.Semdelete(sem))
      modifies this, queuetab, proctab, semtab
      ensures Valid() && st == SemdeleteOp(old(st), sem)
      ensures r == if BadSem(old(st), sem) then SYSERR else OK
    {
      hide Inv, Enabled, CoreX, Denotes, ReleaseAll, K.Resched, Pos, K.SetSem, SemdeleteOp;
      EnterSemdelete(st, sem);
      if sem < 0 || sem >= NSEM || !semtab[sem].used {
        return SYSERR;
      }
      DeleteUsed(sem, Sem(false, Pos(st.sems[sem].count) + 1));
      return OK;
    }

    /** The loop of semreset.c. */
    method DrainAll(sem: int)
      requires Valid() && Core(st) && 0 <= sem < NSEM
      modifies this`st, queuetab, proctab
      ensures Valid() && Core(st) && st == ReleaseAll(old(st), sem)
    {
      hide CoreX, Denotes, ReleaseFirst, ReleaseAll;
      assert IsQueue(QueueHead(sem)) && ListOf(QueueHead(sem)) == sem;
      var empty := IsEmpty(QueueHead(sem));
      while !empty
        invariant Valid() && Core(st) && empty == (st.lists[sem] == [])
        invariant ReleaseAll(st, sem) == ReleaseAll(old(st), sem)
        decreases |st.lists[sem]|
      {
        DrainStep(st, sem);
        ReleaseUnqueued(QueueHead(sem));
        empty := IsEmpty(QueueHead(sem));
      }
      DrainDone(st, sem);
    }

    /** semreset.c */
    method Semreset(sem: int, count: int) returns (r: int)
      requires Valid() && Inv(st) && Enabled(st, Op.Semreset(sem, count))
      modifies this, queuetab, proctab, semtab
      ensures Valid() && st == SemresetOp(old(st), sem, count)
      ensures r == if count < 0 || BadSem(old(st), sem) then SYSERR else OK
    {
      EnterSem(st, sem);
      EnterDrain(st, sem);
      hide Inv, Enabled, CoreX, Rest, Running, Denotes, Private, ReleaseAll, K.Resched;
      if count < 0 || sem < 0 || sem >= NSEM || !semtab[sem].used {
        return SYSERR;
      }
      DrainAll(sem);
      Recount(sem, count);
      Resched();
      return OK;
    }

    /** `sem = nextsem++`, wrapping at the end of the table. */
    method AdvanceSem() returns (sem: int)
      requires Valid()
      modifies this`st, this`nextsem
      ensures Valid() && sem == old(st).nextsem && st == old(st).(nextsem := if sem + 1 >= NSEM then 0 else sem + 1)
    {
      hide Denotes;
      sem := nextsem;
      nextsem := nextsem + 1;
      if nextsem >= NSEM {
        nextsem := 0;
      }
      st := st.(nextsem := nextsem);
    }

    /** newsem.c: the first free entry, searching cyclically from `nextsem`. */
    method NewSem() returns (r: int)
      requires Valid()
      modifies this`st, this`nextsem, semtab
      ensures Valid()
      ensures match FindSem(old(st).sems, old(st).nextsem, 0)
              case None => r == SYSERR && st == old(st)
              case Some(sem) =>
                var next := if sem + 1 >= NSEM then 0 else sem + 1;
                r == sem && st == K.SetSem(old(st), sem, old(st).sems[sem].(used := true)).(nextsem := next)
    {
      var i := 0;
      ghost var start := nextsem;
      FullCircle(start);
      hide Denotes, Slot, FindSem;
      while i < NSEM
        invariant 0 <= i <= NSEM && Valid() && nextsem == Slot(start, i)
        invariant st == old(st).(nextsem := nextsem)
        invariant FindSem(old(st).sems, start, 0) == FindSem(old(st).sems, start, i)
      {
        SlotNext(start, i);
        FindSemStep(old(st).sems, start, i);
        var sem := AdvanceSem();
        if !semtab[sem].used {
          SetSem(sem, semtab[sem].(used := true));
          return sem;
        }
        i := i + 1;
      }
      FindSemStep(old(st).sems, start, NSEM);
      return SYSERR;
    }

    /** semcreate.c */
    method Semcreate(count: int) returns (r: int)
      requires Valid()
      modifies this`st, this`nextsem, semtab
      ensures Valid() && st == SemcreateOp(old(st), count)
      ensures var found := FindSem(old(st).sems, old(st).nextsem, 0);
              r == if count < 0 || found.None? then SYSERR else found.value
    {
      hide Denotes, FindSem;
      if count < 0 {
        return SYSERR;
      }
      r := NewSem();
      if r == SYSERR {
        return;
      }
      SetSem(r, semtab[r].(count := count));
    }

    // ---- processes -----------------------------------------------------------------

    /** `nextpid %= NPROC`, then `nextpid++`. */
    method AdvancePid() returns (pid: int)
      requires Valid()
      modifies this`st, this`nextpid
      ensures Valid() && pid == old(st).nextpid % NPROC && st == old(st).(nextpid := pid + 1)
    {
      hide Denotes;
      nextpid := nextpid % NPROC;
      pid := nextpid;
      nextpid := nextpid + 1;
      st := st.(nextpid := nextpid);
    }

    /** create.c, newpid: the first free entry, searching cyclically from `nextpid`. */
    method NewPid() returns (r: int)
      requires Valid()
      modifies this`st, this`nextpid
      ensures Valid()
      ensures match NextFree(old(st))
              case None => r == SYSERR && st == old(st).(nextpid := AfterFullScan(old(st).nextpid))
              case Some(pid) => r == pid && st == old(st).(nextpid := pid + 1)
    {
      var i := 0;
      ghost var start := nextpid;
      FullCircle(start);
      hide Denotes, Slot, FindPid;
      while i < NPROC
        invariant 0 <= i <= NPROC && Valid() && st == old(st).(nextpid := nextpid)
        invariant nextpid % NPROC == Slot(start, i) && (i > 0 ==> nextpid == Slot(start, i - 1) + 1)
        invariant FindPid(old(st).procs, start, 0) == FindPid(old(st).procs, start, i)
      {
        SlotNext(start, i);
        FindPidStep(old(st).procs, start, i);
        r := AdvancePid();
        if proctab[r].state.Free? {
          return;
        }
        i := i + 1;
      }
      FindPidStep(old(st).procs, start, NPROC);
      return SYSERR;
    }

    /** create.c: table accounting; `stack` says whether `getstk` found memory. */
    method Create(stack: bool, prio: int) returns (r: int)
      requires Valid() && Inv(st)
      modifies this`st, this`nextpid, proctab
      ensures Valid() && st == CreateOp(old(st), stack, prio)
      ensures r == if !stack || prio < 1 || NextFree(old(st)).None? then SYSERR else NextFree(old(st)).value
    {
      EnterYield(st);
      assert CreateOp(st, false, prio) == st;
      hide Denotes, NextFree, Inv, CoreX, CreateOp;
      if !stack {
        return SYSERR;
      }
      r := TakeEntry(prio);
    }

    /** create.c once the stack is there. */
    method TakeEntry(prio: int) returns (r: int)
      requires Valid() && CurrInRange(st)
      modifies this`st, this`nextpid, proctab
      ensures Valid() && st == CreateOp(old(st), true, prio)
      ensures r == if prio < 1 || NextFree(old(st)).None? then SYSERR else NextFree(old(st)).value
    {
      CreateCases(st, prio);
      hide Denotes, NextFree, AfterFullScan, CreateOp, Filled;
      r := NewPid();
      if r == SYSERR || prio < 1 {
        return SYSERR;
      }
      FillEntry(r, prio);
    }

    method FillEntry(pid: int, prio: int)
      requires Valid() && 0 <= pid < NPROC
      modifies this`st, proctab
      ensures Valid() && st == Filled(old(st), pid, prio)
    {
      hide Denotes;
      SetEntry(pid, Proc(Susp, prio, -1, currpid, false, proctab[pid].msg));
      st := SetCont(st, pid, NoCont);
    }

    /** resume.c */
    method Resume(pid: int) returns (r: int)
      requires Valid() && Inv(st)
      modifies this, queuetab, proctab
      ensures Valid() && st == ResumeOp(old(st), pid)
      ensures r == if BadPid(old(st), pid) || !old(st).procs[pid].state.Susp? then SYSERR else old(st).procs[pid].prio
    {
      EnterResume(st, pid);
      hide Inv, CoreX, Denotes, MakeReady, K.Resched, OnNoList;
      var bad := IsBadPid(pid);
      if bad {
        return SYSERR;
      }
      if !proctab[pid].state.Susp? {
        return SYSERR;
      }
      r := proctab[pid].prio;
      var _ := Ready(pid);
      MakeReadyKeeps(old(st), pid);
      Resched();
    }

    /** suspend.c; the priority is read before the switch, as it does not change while suspended. */
    method Suspend(pid: int) returns (r: int)
      requires Valid() && Inv(st) && Enabled(st, Op.Suspend(pid))
      modifies this, queuetab, proctab
      ensures Valid() && st == SuspendOp(old(st), pid)
      ensures var s := old(st);
              r == if BadPid(s, pid) || pid == NULLPROC || !(s.procs[pid].state.Ready? || s.procs[pid].state.Curr?)
                   then SYSERR else s.procs[pid].prio
    {
      EnterSuspend(st, pid);
      hide Inv, Enabled, CoreX, Denotes, K.Resched, OnNoList, Remove;
      var bad := IsBadPid(pid);
      if bad || pid == NULLPROC {
        return SYSERR;
      }
      if !proctab[pid].state.Curr? && !proctab[pid].state.Ready? {
        return SYSERR;
      }
      r := proctab[pid].prio;
      if proctab[pid].state.Ready? {
        var _ := GetItem(pid, READYQ);
        SetEntry(pid, proctab[pid].(state := Susp));
      } else {
        SetEntry(pid, proctab[pid].(state := Susp));
        Resched();
      }
    }

    // ---- timers and messages -------------------------------------------------------

    /** unsleep.c on a process that is on the sleep queue. */
    method Unsleep(pid: int) returns (r: int)
      requires Valid()
      requires !BadPid(st, pid) && (st.procs[pid].state.Sleep? || st.procs[pid].state.RecTim?) ==>
                 pid in st.lists[SLEEPQ]
      modifies this`st, queuetab
      ensures Valid()
      ensures var s := old(st);
              if BadPid(s, pid) || !(s.procs[pid].state.Sleep? || s.procs[pid].state.RecTim?)
              then r == SYSERR && st == s
              else r == OK && st == K.Unsleep(s, pid) && OnNoList(st.lists, pid)
    {
      hide Denotes, OnNoList, K.Unsleep;
      var bad := IsBadPid(pid);
      if bad {
        return SYSERR;
      }
      if !proctab[pid].state.Sleep? && !proctab[pid].state.RecTim? {
        return SYSERR;
      }
      TakeSleeper(pid);
      return OK;
    }

    /** unsleep.c without the checks. */
    method TakeSleeper(pid: int)
      requires Valid() && 0 <= pid < NPROC && pid in st.lists[SLEEPQ]
      modifies this`st, queuetab
      ensures Valid() && st == K.Unsleep(old(st), pid) && OnNoList(st.lists, pid)
    {
      UnsleepByLinks(queuetab[..], st, pid);
      hide Denotes, OnNoList, W32, K.Unsleep, K.Unlink;
      var next := queuetab[pid].qnext;
      if next < NPROC {
        SetKey(next, W32(queuetab[next].qkey + queuetab[pid].qkey));
      }
      var _ := GetItem(pid, SLEEPQ);
    }

    /** sleep.c, sleepms */
    method Sleepms(delay: int) returns (r: int)
      requires Valid() && Inv(st) && Enabled(st, Op.Sleepms(delay))
      modifies this, queuetab, proctab
      ensures Valid() && st == SleepmsOp(old(st), delay) && r == OK
    {
      EnterYield(st);
      if delay == 0 {
        hide Inv, Enabled, CoreX, Denotes, K.Resched;
        Resched();
        return OK;
      }
      EnterDelay(st, st.conts[st.currpid], W32(delay), Sleep);
      assert SetCont(st, st.currpid, st.conts[st.currpid]) == st;
      assert st.ndefers == 0;
      hide Inv, Enabled, CoreX, Denotes, K.Resched, K.InsertD, OnNoList, W32;
      r := Insertd(currpid, sleepq, W32(delay));
      InsertDKeeps(old(st), old(st).currpid, W32(delay));
      SetEntry(currpid, proctab[currpid].(state := Sleep));
      Resched();
    }

    /** `ready(pid, RESCHED_YES)` for a process in transit. */
    method ReadyNow(pid: int)
      requires Valid() && !BadPid(st, pid) && OnNoList(st.lists, pid) && st.procs[pid].prio >= 0
      requires st.ndefers >= 0 && CurrInRange(st) && Core(MakeReady(st, pid))
      requires MakeReady(st, pid).procs[st.currpid].state.Curr?
      modifies this, queuetab, proctab
      ensures Valid() && st == K.Resched(MakeReady(old(st), pid))
    {
      MakeReadyKeeps(st, pid);
      hide CoreX, Denotes, K.Resched, MakeReady, OnNoList;
      var _ := Ready(pid);
      Resched();
    }

    /** send.c */
    method Send(pid: int, msg: int) returns (r: int)
      requires Valid() && Inv(st)
      modifies this, queuetab, proctab
      ensures Valid() && st == SendOp(old(st), pid, msg)
      ensures r == if BadPid(old(st), pid) || old(st).procs[pid].hasmsg then SYSERR else OK
    {
      hide Inv, CoreX, Denotes, K.Resched, K.Unsleep, MakeReady, OnNoList;
      EnterSend(st, pid, msg);
      var bad := IsBadPid(pid);
      if bad || proctab[pid].hasmsg {
        return SYSERR;
      }
      SetEntry(pid, proctab[pid].(msg := msg, hasmsg := true));
      if proctab[pid].state.Recv? {
        ReadyNow(pid);
      } else if proctab[pid].state.RecTim? {
        UnsleepKeeps(st, pid);
        var _ := Unsleep(pid);
        ReadyNow(pid);
      }
      return OK;
    }

    /** receive.c up to the reschedule. */
    method Receive()
      requires Valid() && Inv(st) && Enabled(st, Op.Receive)
      modifies this, queuetab, proctab
      ensures Valid() && st == ReceiveOp(old(st))
    {
      EnterReceive(st);
      hide Inv, Enabled, CoreX, Denotes, K.Resched;
      st := SetCont(st, st.currpid, InReceive);
      if !proctab[currpid].hasmsg {
        SetEntry(currpid, proctab[currpid].(state := Recv));
        Resched();
      }
    }

    /** receive.c after the reschedule: the message is there. */
    method ReceiveRest() returns (msg: int)
      requires Valid() && Inv(st) && st.conts[st.currpid].InReceive?
      modifies this`st, proctab
      ensures Valid() && st == FinishOp(old(st))
      ensures old(st).procs[old(st).currpid].hasmsg && msg == old(st).procs[old(st).currpid].msg
    {
      Fits(st, st.currpid);
      hide Inv, CoreX, Denotes;
      st := SetCont(st, st.currpid, NoCont);
      msg := proctab[currpid].msg;
      SetEntry(currpid, proctab[currpid].(hasmsg := false));
    }

    /** recvclr.c */
    method Recvclr() returns (msg: int)
      requires Valid() && Inv(st)
      modifies this`st, proctab
      ensures Valid() && st == ClearMsg(old(st))
      ensures msg == if old(st).procs[old(st).currpid].hasmsg then old(st).procs[old(st).currpid].msg else OK
    {
      EnterYield(st);
      hide Inv, CoreX, Denotes;
      if proctab[currpid].hasmsg {
        msg := proctab[currpid].msg;
        SetEntry(currpid, proctab[currpid].(hasmsg := false));
      } else {
        msg := OK;
        assert st.procs[st.currpid := st.procs[st.currpid].(hasmsg := false)] == st.procs;
      }
    }

    /** recvtime.c up to the reschedule. */
    method Recvtime(maxwait: int) returns (r: int)
      requires Valid() && Inv(st) && Enabled(st, Op.Recvtime(maxwait))
      modifies this, queuetab, proctab
      ensures Valid() && st == RecvtimeOp(old(st), maxwait)
      ensures r == if maxwait < 0 then SYSERR else OK
    {
      EnterYield(st);
      if maxwait < 0 {
        return SYSERR;
      }
      if !st.procs[st.currpid].hasmsg {
        EnterDelay(st, InRecvtime, maxwait, RecTim);
        assert st.ndefers == 0;
      }
      hide Inv, Enabled, CoreX, Denotes, K.Resched, K.InsertD, OnNoList;
      st := SetCont(st, st.currpid, InRecvtime);
      if !proctab[currpid].hasmsg {
        InsertDKeeps(st, st.currpid, maxwait);
        var _ := Insertd(currpid, sleepq, maxwait);
        SetEntry(currpid, proctab[currpid].(state := RecTim));
        Resched();
      }
      return OK;
    }

    /** recvtime.c after the reschedule: a message, or the time ran out. */
    method RecvtimeRest() returns (msg: int)
      requires Valid() && Inv(st) && st.conts[st.currpid].InRecvtime?
      modifies this`st, proctab
      ensures Valid() && st == FinishOp(old(st))
      ensures msg == if old(st).procs[old(st).currpid].hasmsg then old(st).procs[old(st).currpid].msg else TIMEOUT
    {
      EnterYield(st);
      hide Inv, CoreX, Denotes;
      st := SetCont(st, st.currpid, NoCont);
      if proctab[currpid].hasmsg {
        msg := proctab[currpid].msg;
        SetEntry(currpid, proctab[currpid].(hasmsg := false));
      } else {
        msg := TIMEOUT;
        assert st.procs[st.currpid := st.procs[st.currpid].(hasmsg := false)] == st.procs;
      }
    }

    // ---- kill ----------------------------------------------------------------------

    /** kill.c up to the message to the parent. */
    method Kill(pid: int) returns (r: int)
      requires Valid() && Inv(st) && Enabled(st, Op.Kill(pid))
      modifies this, queuetab, proctab
      ensures Valid() && st == KillOp(old(st), pid)
      ensures r == if BadPid(old(st), pid) || pid == NULLPROC then SYSERR else OK
    {
      hide Inv, Enabled, Denotes, SendOp;
      EnterKill(st, pid);
      var bad := IsBadPid(pid);
      if bad || pid == NULLPROC {
        return SYSERR;
      }
      var parent := proctab[pid].parent;
      st := SetCont(st, st.currpid, InKill(pid));
      var _ := Send(parent, pid);
      return OK;
    }

    /** kill.c after the message: unlink the victim from whichever queue holds it. */
    method KillRest(pid: int)
      requires Valid() && Inv(st) && 0 < pid < NPROC && (pid == st.currpid ==> st.ndefers == 0)
      modifies this, queuetab, proctab, semtab
      ensures Valid() && st == K.KillRest(old(st), pid)
    {
      EnterKillRest(st, pid);
      hide Inv, CoreX, Denotes, K.Resched, K.Unsleep, Remove, SetFree, OnNoList;
      match proctab[pid].state
      case Curr =>
        FreeEntry(pid);
        Resched();
      case Sleep =>
        KillSleeper(pid);
      case RecTim =>
        KillSleeper(pid);
      case Wait =>
        KillWaiter(pid);
      case Ready =>
        var _ := GetItem(pid, READYQ);
        FreeEntry(pid);
      case _ =>
        FreeEntry(pid);
    }

    /** A killed sleeper leaves its delay to its successor. */
    method KillSleeper(pid: int)
      requires Valid() && !BadPid(st, pid) && pid in st.lists[SLEEPQ]
      requires st.procs[pid].state.Sleep? || st.procs[pid].state.RecTim?
      modifies this`st, queuetab, proctab
      ensures Valid() && st == SetFree(K.Unsleep(old(st), pid), pid)
    {
      hide Denotes, K.Unsleep, SetFree, OnNoList;
      var _ := Unsleep(pid);
      FreeEntry(pid);
    }

    /** A killed waiter gives its unit of the count back. */
    method KillWaiter(pid: int)
      requires Valid() && 0 <= pid < NPROC && 0 <= st.procs[pid].sem < NSEM && pid in st.lists[st.procs[pid].sem]
      modifies this`st, queuetab, proctab, semtab
      ensures Valid()
      ensures var s := old(st); var sem := s.procs[pid].sem;
              st == SetFree(K.Unlink(SetCount(s, sem, s.sems[sem].count + 1), pid, sem), pid)
    {
      hide Denotes, Remove, SetFree, OnNoList;
      var sem := proctab[pid].sem;
      SetSem(sem, semtab[sem].(count := semtab[sem].count + 1));
      var _ := GetItem(pid, sem);
      FreeEntry(pid);
    }

    method FreeEntry(pid: int)
      requires Valid() && 0 <= pid < NPROC
      modifies this`st, proctab
      ensures Valid() && st == SetFree(old(st), pid)
    {
      ghost var s0 := st;
      hide Denotes;
      SetEntry(pid, proctab[pid].(state := Free));
      st := SetFree(s0, pid);
    }

    // ---- deferral and clock --------------------------------------------------------

    /** sched_cntl.c with DEFER_START. */
    method DeferStart()
      requires Valid()
      modifies this
      ensures Valid() && st == K.DeferStart(old(st))
    {
      hide Denotes;
      if ndefers == 0 {
        attempt := false;
      }
      ndefers := ndefers + 1;
      st := K.DeferStart(st);
    }

    /** sched_cntl.c with DEFER_STOP. */
    method DeferStop() returns (r: int)
      requires Valid() && Inv(st)
      modifies this, queuetab, proctab
      ensures Valid() && st == K.DeferStop(old(st))
      ensures r == if old(st).ndefers <= 0 then SYSERR else OK
    {
      EnterYield(st);
      if ndefers <= 0 {
        return SYSERR;
      }
      CoreIgnores(st, st.(ndefers := st.ndefers - 1), -1);
      hide Inv, CoreX, Denotes, K.Resched;
      ndefers := ndefers - 1;
      st := st.(ndefers := ndefers);
      if ndefers == 0 && attempt {
        Resched();
      }
      return OK;
    }

    /** The loop of wakeup.c. */
    method WakeLoop()
      requires Valid() && Core(st)
      modifies this`st, queuetab, proctab
      ensures Valid() && st == K.WakeLoop(old(st)) && Core(st)
    {
      hide CoreX, Denotes, ReleaseFirst, K.WakeLoop;
      assert IsQueue(sleepq) && ListOf(sleepq) == SLEEPQ;
      var due := FirstDue();
      while due
        invariant Valid() && Core(st) && K.WakeLoop(st) == K.WakeLoop(old(st))
        invariant due == (st.lists[SLEEPQ] != [] && Key(st.keys, st.lists[SLEEPQ][0]) <= 0)
        decreases |st.lists[SLEEPQ]|
      {
        WakeLoopStep(st);
        Release(sleepq);
        due := FirstDue();
      }
      if st.lists[SLEEPQ] != [] { WakeLoopStep(st); }
      WakeLoopEmpty(st);
    }

    /** `nonempty(sleepq) && firstkey(sleepq) <= 0` */
    method FirstDue() returns (r: bool)
      requires Valid()
      ensures r == (st.lists[SLEEPQ] != [] && Key(st.keys, st.lists[SLEEPQ][0]) <= 0)
    {
      FirstNode(queuetab[..], st.keys, st.lists, SLEEPQ);
      assert IsQueue(sleepq) && ListOf(sleepq) == SLEEPQ;
      var empty := IsEmpty(sleepq);
      if empty {
        return false;
      }
      KeyEntry(queuetab[sleepq].qnext);
      r := queuetab[queuetab[sleepq].qnext].qkey <= 0;
    }

    /** clkhandler.c up to the preemption check. */
    method Clkhandler()
      requires Valid() && Inv(st) && Enabled(st, Tick)
      modifies this, queuetab, proctab
      ensures Valid() && st == TickOp(old(st))
    {
      EnterTick(st);
      DecFirstKeeps(SetCont(st, st.currpid, InTick));
      hide Inv, Enabled, CoreX, Denotes, K.Resched, K.WakeLoop, DecFirst;
      st := SetCont(st, st.currpid, InTick);
      DecrementFirst();
      var due := FirstDue();
      if due {
        WakeLoop();
        Resched();
      }
    }

    /** `--firstkey(sleepq)` on a queue that is not empty. */
    method DecrementFirst()
      requires Valid()
      modifies this`st, queuetab
      ensures Valid() && st == DecFirst(old(st))
    {
      FirstNode(queuetab[..], st.keys, st.lists, SLEEPQ);
      hide Denotes, W32;
      assert IsQueue(sleepq) && ListOf(sleepq) == SLEEPQ;
      var empty := IsEmpty(sleepq);
      if !empty {
        var first := queuetab[sleepq].qnext;
        KeyEntry(first);
        SetKey(first, W32(queuetab[first].qkey - 1));
      }
    }

    /** clkhandler.c, the preemption check. */
    method ClkhandlerRest()
      requires Valid() && Inv(st) && st.conts[st.currpid].InTick?
      modifies this, queuetab, proctab
      ensures Valid() && st == FinishOp(old(st))
    {
      EnterYield(st);
      CoreIgnores(st, SetCont(st, st.currpid, NoCont).(preempt := QUANTUM), -1);
      hide Inv, CoreX, Denotes, K.Resched;
      st := SetCont(st, st.currpid, NoCont);
      preempt := (preempt - 1) % 0x1_0000_0000;
      st := st.(preempt := preempt);
      if preempt <= 0 {
        preempt := QUANTUM;
        st := st.(preempt := QUANTUM);
        Resched();
      }
    }

    lemma FirstKeyEntry()
      requires Valid()
      ensures 0 <= queuetab[readylist].qnext < NQENT && queuetab[queuetab[readylist].qnext].qkey == FirstReadyKey(st)
    {
      FirstNode(queuetab[..], st.keys, st.lists, READYQ);
    }
  }
}
