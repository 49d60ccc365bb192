/**
 What the imperative kernel needs to know of the model: how a walk through the table of links
 meets a queue, the states in the middle of a call, and what a call may rely on at its start.
 */
module KernelFacts {
  import opened Wrappers
  import opened KernelState
  import opened KernelInvariant
  import opened KernelSteps
  import opened KernelSafety
  import opened QueueTable
  import K = KernelState

  predicate BadQid(q: int) { q < 0 || q >= NQENT - 1 }

  /** `q` is the head entry of a queue. */
  predicate IsQueue(q: int) { NPROC <= q < NQENT && (q - NPROC) % 2 == 0 }

  function ListOf(q: int): int { (q - NPROC) / 2 }

  // ---- pure facts the methods need -------------------------------------------------

  lemma ListOfHead(q: int)
    requires IsQueue(q)
    ensures 0 <= ListOf(q) < NLISTS && QueueHead(ListOf(q)) == q
  {
  }

  /** Links of a process on no list may hold anything. */
  lemma DenotesLoose(tab: seq<QEntry>, tab': seq<QEntry>, keys: seq<int>, lists: seq<seq<int>>, p: int)
    requires Denotes(tab, keys, lists) && 0 <= p < NPROC && OnNoList(lists, p) && |tab'| == |tab|
    requires forall x :: 0 <= x < NQENT && x != p ==> tab'[x] == tab[x]
    requires tab'[p].qkey == keys[p]
    ensures Denotes(tab', keys, lists)
  {
    forall k | 0 <= k < NLISTS
      ensures Linked(tab', QueueHead(k), lists[k])
    {
      LinkedFrame(tab, tab', QueueHead(k), lists[k]);
    }
  }

  /** A change of keys alone. */
  lemma DenotesKeys(tab: seq<QEntry>, tab': seq<QEntry>, keys: seq<int>, keys': seq<int>, lists: seq<seq<int>>, p: int)
    requires Denotes(tab, keys, lists) && 0 <= p < NPROC && |tab'| == |tab| && |keys'| == NPROC
    requires forall x :: 0 <= x < NQENT && x != p ==> tab'[x] == tab[x]
    requires SameLinks(tab[p], tab'[p]) && keys' == keys[p := tab'[p].qkey]
    ensures Denotes(tab', keys', lists)
  {
    forall k | 0 <= k < NLISTS
      ensures Linked(tab', QueueHead(k), lists[k])
    {
      LinkedFrame(tab, tab', QueueHead(k), lists[k]);
    }
  }

  lemma LinkStep(tab: seq<QEntry>, h: int, l: seq<int>, i: int)
    requires Linked(tab, h, l) && 0 <= i <= |l|
    ensures 0 <= Node(h, l, i - 1) < NQENT && 0 <= Node(h, l, i) < NQENT
    ensures tab[Node(h, l, i - 1)].qnext == Node(h, l, i) && tab[Node(h, l, i)].qprev == Node(h, l, i - 1)
    ensures Node(h, l, -1) == h && Node(h, l, |l|) == h + 1
  {
  }

  /** What a walk from the head sees on arriving at place `i` of a queue. */
  lemma WalkEntry(tab: seq<QEntry>, keys: seq<int>, lists: seq<seq<int>>, k: int, i: nat)
    requires Denotes(tab, keys, lists) && 0 <= k < NLISTS && i <= |lists[k]|
    ensures var h, l := QueueHead(k), lists[k];
            && 0 <= h < NQENT && 0 <= Node(h, l, i) < NQENT && 0 <= Node(h, l, i - 1) < NQENT
            && (i == 0 ==> Node(h, l, i - 1) == h)
            && tab[Node(h, l, i - 1)].qnext == Node(h, l, i) && tab[Node(h, l, i)].qprev == Node(h, l, i - 1)
            && tab[Node(h, l, i)].qkey == if i < |l| then Key(keys, l[i]) else MINKEY
  {
    var h, l := QueueHead(k), lists[k];
    assert Linked(tab, h, l);
    LinkStep(tab, h, l, i);
  }

  /** What the table shows at entry `i` of a queue, and where it leads. */
  lemma NodeEntry(tab: seq<QEntry>, keys: seq<int>, lists: seq<seq<int>>, k: int, i: nat)
    requires Denotes(tab, keys, lists) && 0 <= k < NLISTS && i <= |lists[k]|
    ensures var h, l := QueueHead(k), lists[k];
            && Node(h, l, -1) == h
            && (i == |l| ==> Node(h, l, i) == h + 1)
            && (i < |l| ==> && Node(h, l, i) == l[i] && 0 <= l[i] < NPROC && tab[l[i]].qkey == Key(keys, l[i])
                            && tab[l[i]].qnext == Node(h, l, i + 1) && 0 <= Node(h, l, i + 1) < NQENT)
  {
    var h, l := QueueHead(k), lists[k];
    assert Linked(tab, h, l);
    if i < |l| { LinkStep(tab, h, l, i + 1); }
  }

  /** After passing `i` entries, `key` is what the search started with has left. */
  ghost predicate DeltaAt(l: seq<int>, keys: seq<int>, delay: int, i: nat, key: int) {
    && i <= |l|
    && DeltaPos(l, keys, delay) == (DeltaPos(l[i..], keys, key).0 + i, DeltaPos(l[i..], keys, key).1)
  }

  lemma DeltaStart(l: seq<int>, keys: seq<int>, delay: int)
    ensures DeltaAt(l, keys, delay, 0, delay)
  {
    assert l[0..] == l;
  }

  lemma DeltaNext(l: seq<int>, keys: seq<int>, delay: int, i: nat, key: int)
    requires DeltaAt(l, keys, delay, i, key) && i < |l| && Key(keys, l[i]) <= key
    ensures DeltaAt(l, keys, delay, i + 1, W32(key - Key(keys, l[i])))
  {
    assert l[i..][0] == l[i] && l[i..][1..] == l[i + 1..];
    hide W32;
  }

  lemma DeltaStop(l: seq<int>, keys: seq<int>, delay: int, i: nat, key: int)
    requires DeltaAt(l, keys, delay, i, key) && (i < |l| ==> Key(keys, l[i]) > key)
    ensures DeltaPos(l, keys, delay) == (i, key)
  {
    if i < |l| { assert l[i..][0] == l[i]; }
  }

  /** Where the walk of `insert` stands after passing `i` entries. */
  ghost predicate KeyWalk(keys: seq<int>, l: seq<int>, k: int, key: int, curr: int, i: nat) {
    && i <= |l| && curr == Node(QueueHead(k), l, i) && 0 <= curr < NQENT
    && forall j :: 0 <= j < i ==> Key(keys, l[j]) >= key
  }

  lemma KeyWalkStart(tab: seq<QEntry>, keys: seq<int>, lists: seq<seq<int>>, k: int, key: int)
    requires Denotes(tab, keys, lists) && 0 <= k < NLISTS
    ensures 0 <= QueueHead(k) < NQENT
    ensures var first := tab[QueueHead(k)].qnext; 0 <= first < NQENT && KeyWalk(keys, lists[k], k, key, first, 0)
  {
    WalkEntry(tab, keys, lists, k, 0);
  }

  lemma KeyWalkNext(tab: seq<QEntry>, keys: seq<int>, lists: seq<seq<int>>, k: int, key: int, curr: int, i: nat)
    requires Denotes(tab, keys, lists) && 0 <= k < NLISTS && KeyWalk(keys, lists[k], k, key, curr, i)
    requires MINKEY < key && tab[curr].qkey >= key
    ensures i < |lists[k]| && 0 <= tab[curr].qnext < NQENT && KeyWalk(keys, lists[k], k, key, tab[curr].qnext, i + 1)
  {
    hide Denotes, Node, Key, QueueHead;
    WalkEntry(tab, keys, lists, k, i);
    NodeEntry(tab, keys, lists, k, i);
  }

  lemma KeyWalkStop(tab: seq<QEntry>, keys: seq<int>, lists: seq<seq<int>>, k: int, key: int, curr: int, i: nat)
    requires Denotes(tab, keys, lists) && 0 <= k < NLISTS && KeyWalk(keys, lists[k], k, key, curr, i)
    requires tab[curr].qkey < key
    ensures var h, l := QueueHead(k), lists[k];
            i == KeyPos(l, keys, key) && curr == Node(h, l, i) && tab[curr].qprev == Node(h, l, i - 1)
  {
    var l := lists[k];
    hide Denotes, Node, KeyPos, Key, QueueHead;
    WalkEntry(tab, keys, lists, k, i);
    KeyPosUnique(l, keys, key, i);
  }

  /** Where the walk of `insertd` stands after passing `i` entries. */
  ghost predicate DeltaWalk(keys: seq<int>, l: seq<int>, delay: int, prev: int, next: int, key: int, i: nat) {
    && i <= |l| && DeltaAt(l, keys, delay, i, key)
    && prev == Node(QueueHead(SLEEPQ), l, i - 1) && next == Node(QueueHead(SLEEPQ), l, i) && 0 <= next < NQENT
  }

  lemma DeltaWalkRange(keys: seq<int>, l: seq<int>, delay: int, prev: int, next: int, key: int, i: nat)
    requires DeltaWalk(keys, l, delay, prev, next, key, i)
    ensures 0 <= next < NQENT && i <= |l|
  {
  }

  lemma DeltaWalkStart(tab: seq<QEntry>, keys: seq<int>, lists: seq<seq<int>>, delay: int)
    requires Denotes(tab, keys, lists)
    ensures DeltaWalk(keys, lists[SLEEPQ], delay, QueueHead(SLEEPQ), tab[QueueHead(SLEEPQ)].qnext, delay, 0)
  {
    WalkEntry(tab, keys, lists, SLEEPQ, 0);
    DeltaStart(lists[SLEEPQ], keys, delay);
    hide Denotes, DeltaAt;
  }

  lemma DeltaWalkNext(tab: seq<QEntry>, keys: seq<int>, lists: seq<seq<int>>, delay: int, prev: int, next: int,
                      key: int, i: nat)
    requires Denotes(tab, keys, lists) && DeltaWalk(keys, lists[SLEEPQ], delay, prev, next, key, i)
    requires next != QueueTail(SLEEPQ) && tab[next].qkey <= key
    ensures i < |lists[SLEEPQ]|
    ensures DeltaWalk(keys, lists[SLEEPQ], delay, next, tab[next].qnext, W32(key - tab[next].qkey), i + 1)
  {
    NodeEntry(tab, keys, lists, SLEEPQ, i);
    hide Denotes, DeltaAt, W32, Node;
    DeltaNext(lists[SLEEPQ], keys, delay, i, key);
  }

  lemma DeltaWalkStop(tab: seq<QEntry>, keys: seq<int>, lists: seq<seq<int>>, delay: int, prev: int, next: int,
                      key: int, i: nat)
    requires Denotes(tab, keys, lists) && DeltaWalk(keys, lists[SLEEPQ], delay, prev, next, key, i)
    requires next == QueueTail(SLEEPQ) || tab[next].qkey > key
    ensures var l := lists[SLEEPQ]; var h := QueueHead(SLEEPQ);
            i <= |l| && DeltaPos(l, keys, delay) == (i, key) && prev == Node(h, l, i - 1) && next == Node(h, l, i)
  {
    NodeEntry(tab, keys, lists, SLEEPQ, i);
    hide Denotes, DeltaAt, DeltaPos, Node;
    DeltaStop(lists[SLEEPQ], keys, delay, i, key);
  }

  /** `unsleep` in terms of the entry behind the sleeper. */
  lemma UnsleepByLinks(tab: seq<QEntry>, s: KState, p: int)
    requires Denotes(tab, s.keys, s.lists) && 0 <= p < NPROC && p in s.lists[SLEEPQ]
    ensures var next := tab[p].qnext;
            && 0 <= next < NQENT && tab[p].qkey == s.keys[p]
            && (next < NPROC ==>
                  && tab[next].qkey == s.keys[next]
                  && K.Unsleep(s, p) == K.Unlink(s.(keys := s.keys[next := W32(s.keys[next] + s.keys[p])]), p, SLEEPQ))
            && (next >= NPROC ==> K.Unsleep(s, p) == K.Unlink(s, p, SLEEPQ))
  {
    assert forall q :: 0 <= q < NPROC ==> tab[q].qkey == s.keys[q];
    hide Denotes, W32, IndexOf, Remove;
    var l := s.lists[SLEEPQ];
    var i := IndexOf(l, p);
    NodeEntry(tab, s.keys, s.lists, SLEEPQ, i);
    NodeEntry(tab, s.keys, s.lists, SLEEPQ, i + 1);
  }

  // ---- states in the middle of a call ----------------------------------------------

  lemma WaitMidCore(s: KState, sem: int)
    requires Core(s) && s.procs[s.currpid].state.Curr? && s.currpid != NULLPROC && 0 <= sem < NSEM
    ensures var s1 := SetCount(s, sem, s.sems[sem].count - 1);
            var pr := s1.procs[s1.currpid].(state := PrState.Wait, sem := sem);
            Core(K.Enqueue(SetProc(s1, s1.currpid, pr), s1.currpid, sem))
  {
    var p := s.currpid;
    var s1 := SetCount(s, sem, s.sems[sem].count - 1);
    Lift(s, p);
    hide CoreX;
    CoreIgnores(s, s1, p);
    TransitProc(s1, p, s1.procs[p].(state := PrState.Wait, sem := sem));
    EnqueueCore(SetProc(s1, p, s1.procs[p].(state := PrState.Wait, sem := sem)), p, sem);
  }

  /** The current process gives up the CPU for a state without a queue. */
  lemma BlockMidCore(s: KState, c: Cont, state: PrState)
    requires Core(s) && s.procs[s.currpid].state.Curr? && s.currpid != NULLPROC
    requires state.Recv? || state.Susp? || state.Free?
    ensures Core(SetState(SetCont(s, s.currpid, c), s.currpid, state))
  {
    var p := s.currpid;
    var s1 := SetCont(s, p, c);
    Lift(s, p);
    hide CoreX;
    CoreIgnores(s, s1, p);
    TransitProc(s1, p, s1.procs[p].(state := state));
    Settle(SetState(s1, p, state), p);
  }

  lemma DelayMidCore(s: KState, c: Cont, key: int, state: PrState)
    requires Core(s) && s.procs[s.currpid].state.Curr? && s.currpid != NULLPROC && (state.Sleep? || state.RecTim?)
    ensures Core(SetState(K.InsertD(SetCont(s, s.currpid, c), s.currpid, key), s.currpid, state))
  {
    var p := s.currpid;
    Lift(s, p);
    hide CoreX, InsertD;
    CoreIgnores(s, SetCont(s, p, c), p);
    InsertDCore(SetCont(s, p, c), p, key, state);
  }

  lemma DeliverMidCore(s: KState, pid: int, msg: int)
    requires Core(s) && 0 <= pid < NPROC && (s.procs[pid].state.Recv? || s.procs[pid].state.RecTim?)
    ensures var s1 := SetProc(s, pid, s.procs[pid].(msg := msg, hasmsg := true));
            var s2 := if s.procs[pid].state.Recv? then s1 else K.Unsleep(s1, pid);
            && Core(s1) && CoreX(s2, pid) && Core(MakeReady(s2, pid))
            && (s.procs[pid].state.RecTim? ==> pid in s1.lists[SLEEPQ])
  {
    var pr := s.procs[pid].(msg := msg, hasmsg := true);
    var s1 := SetProc(s, pid, pr);
    SameStateCore(s, pid, pr);
    AtHome(s1, pid);
    if s.procs[pid].state.Recv? { Lift(s1, pid); } else { UnsleepCore(s1, pid); }
    hide CoreX, Unsleep;
    MakeReadyCore(if s.procs[pid].state.Recv? then s1 else K.Unsleep(s1, pid), pid);
  }

  /** In transit means on no queue. */
  lemma TransitOff(s: KState, p: int)
    requires CoreX(s, p) && 0 <= p < NPROC
    ensures OnNoList(s.lists, p) && s.procs[p].prio >= 0
  {
  }

  lemma CurrentFacts(s: KState)
    requires Core(s) && s.procs[s.currpid].state.Curr?
    ensures OnNoList(s.lists, s.currpid) && !BadPid(s, s.currpid)
  {
  }

  /** The first process of a semaphore queue or of the sleep queue can be made ready. */
  lemma FirstFacts(s: KState, k: int)
    requires Core(s) && 0 <= k < NLISTS && k != READYQ && s.lists[k] != []
    ensures !BadPid(s, s.lists[k][0]) && s.procs[s.lists[k][0]].prio >= 0
  {
    assert s.lists[k][0] in s.lists[k];
  }

  /** Draining a queue does not look at the semaphore table. */
  lemma {:induction false} DrainIgnoresSems(s: KState, k: int, sems: seq<Sem>)
    requires 0 <= k < NLISTS && k != READYQ && |sems| == NSEM
    ensures ReleaseAll(s.(sems := sems), k) == ReleaseAll(s, k).(sems := sems)
    decreases |s.lists[k]|
  {
    if !(s.lists[k] == [] || !(0 <= s.lists[k][0] < NPROC)) {
      DrainIgnoresSems(ReleaseFirst(s, k), k, sems);
      assert ReleaseFirst(s.(sems := sems), k) == ReleaseFirst(s, k).(sems := sems);
    }
  }

  // ---- what a call may rely on when it starts --------------------------------------

  /** What `wait` relies on: the caller runs and, if it is to block, may. */
  ghost predicate CanWait(s: KState, sem: int) {
    && Core(s) && s.ndefers >= 0 && s.procs[s.currpid].state.Curr?
    && (!BadSem(s, sem) && s.sems[sem].count <= 0 ==> s.currpid != NULLPROC && s.ndefers == 0)
  }

  /** What `signal` relies on: the caller runs and counts match queues. */
  ghost predicate CanSignal(s: KState) { Core(s) && SemOK(s) && s.ndefers >= 0 && s.procs[s.currpid].state.Curr? }

  lemma GetbufMayWait(s: KState, i: int)
    requires Inv(s) && 0 <= i < |s.pools| && Enabled(s, Getbuf(i))
    ensures CurrInRange(s) && CanWait(SetCont(s, s.currpid, InGetbuf(i)), s.pools[i].sem)
  {
    CoreIgnores(s, SetCont(s, s.currpid, InGetbuf(i)), -1);
  }

  lemma FreebufMaySignal(s: KState, pools: seq<Pool>)
    requires Inv(s)
    ensures CanSignal(s.(pools := pools))
  {
    CoreIgnores(s, s.(pools := pools), -1);
  }

  lemma EnterWait(s: KState, sem: int)
    requires CanWait(s, sem)
    ensures CurrInRange(s) && s.ndefers >= 0 && OnNoList(s.lists, s.currpid) && !BadPid(s, s.currpid)
    ensures 0 <= sem < NSEM ==> IsQueue(QueueHead(sem)) && ListOf(QueueHead(sem)) == sem
    ensures !BadSem(s, sem) && s.sems[sem].count <= 0 ==>
              && s.ndefers == 0
              && var s1 := SetCount(s, sem, s.sems[sem].count - 1);
                 var pr := s1.procs[s1.currpid].(state := PrState.Wait, sem := sem);
                 Core(K.Enqueue(SetProc(s1, s1.currpid, pr), s1.currpid, sem))
  {
    CurrentFacts(s);
    if !BadSem(s, sem) && s.sems[sem].count <= 0 { WaitMidCore(s, sem); }
  }

  lemma EnterSem(s: KState, sem: int)
    requires Inv(s) && !Private(s, sem)
    ensures CurrInRange(s) && s.ndefers >= 0 && Core(s) && Rest(s) && s.procs[s.currpid].state.Curr?
    ensures 0 <= sem < NSEM && s.sems[sem].used ==> |s.lists[sem]| == Pos(-s.sems[sem].count)
  {
  }

  lemma EnterSignal(s: KState, sem: int)
    requires CanSignal(s)
    ensures CurrInRange(s)
    ensures !BadSem(s, sem) ==>
              var t := SignalOne(s, sem);
              Core(t) && t.procs[s.currpid].state.Curr? && t.ndefers == s.ndefers && t.currpid == s.currpid
  {
    if !BadSem(s, sem) { SignalOneFrame(s, sem); }
  }

  lemma EnterDrain(s: KState, sem: int)
    requires Inv(s) && !Private(s, sem)
    ensures !BadSem(s, sem) ==> var t := ReleaseAll(s, sem);
              t.procs[s.currpid].state.Curr? && t.ndefers == s.ndefers && t.currpid == s.currpid && t.sems == s.sems
  {
    if !BadSem(s, sem) { ReleaseAllMid(s, sem); }
  }

  lemma EnterSemdelete(s: KState, sem: int)
    requires Inv(s) && Enabled(s, Op.Semdelete(sem))
    ensures CurrInRange(s)
    ensures BadSem(s, sem) ==> SemdeleteOp(s, sem) == s
    ensures !BadSem(s, sem) ==>
              var t := ReleaseAll(s, sem);
              && Core(s) && s.ndefers >= 0 && |s.lists[sem]| == Pos(-s.sems[sem].count)
              && CurrInRange(t) && t.procs[t.currpid].state.Curr?
              && SemdeleteOp(s, sem) == K.Resched(K.SetSem(t, sem, Sem(false, Pos(s.sems[sem].count) + 1)))
  {
    hide Inv, CoreX, Rest, ReleaseAll, K.Resched, Pos, K.SetSem, Private;
    EnterSem(s, sem);
    EnterDrain(s, sem);
  }

  lemma Overwrite(sems: seq<Sem>, i: int, a: Sem, b: Sem)
    requires 0 <= i < |sems|
    ensures sems[i := a][i := b] == sems[i := b]
  {
  }

  lemma EnterResume(s: KState, pid: int)
    requires Inv(s)
    ensures CurrInRange(s) && s.ndefers >= 0
    ensures !BadPid(s, pid) && s.procs[pid].state.Susp? ==>
              && OnNoList(s.lists, pid) && s.procs[pid].prio >= 0 && pid != s.currpid
              && Core(MakeReady(s, pid)) && MakeReady(s, pid).procs[s.currpid].state.Curr?
  {
    if !BadPid(s, pid) && s.procs[pid].state.Susp? {
      Lift(s, pid);
      TransitOff(s, pid);
      MakeReadyCore(s, pid);
    }
  }

  lemma EnterSuspend(s: KState, pid: int)
    requires Inv(s) && Enabled(s, Op.Suspend(pid))
    ensures CurrInRange(s) && s.ndefers >= 0
    ensures !BadPid(s, pid) && pid != NULLPROC && s.procs[pid].state.Ready? ==> pid in s.lists[READYQ]
    ensures !BadPid(s, pid) && pid != NULLPROC && s.procs[pid].state.Curr? ==>
              pid == s.currpid && s.ndefers == 0 && Core(SetState(s, pid, Susp))
  {
    InvRuns(s);
    if !BadPid(s, pid) && pid != NULLPROC {
      AtHome(s, pid);
      if s.procs[pid].state.Curr? {
        BlockMidCore(s, s.conts[pid], Susp);
        assert SetCont(s, pid, s.conts[pid]) == s;
      }
    }
  }

  /** The caller goes to the sleep queue. */
  lemma EnterDelay(s: KState, c: Cont, key: int, state: PrState)
    requires Inv(s) && s.currpid != NULLPROC && (state.Sleep? || state.RecTim?)
    ensures CurrInRange(s) && OnNoList(s.lists, s.currpid) && !BadPid(s, s.currpid)
    ensures Core(SetState(K.InsertD(SetCont(s, s.currpid, c), s.currpid, key), s.currpid, state))
  {
    CurrentFacts(s);
    DelayMidCore(s, c, key, state);
  }

  lemma EnterSend(s: KState, pid: int, msg: int)
    requires Inv(s)
    ensures CurrInRange(s) && s.ndefers >= 0
    ensures !BadPid(s, pid) && (s.procs[pid].state.Recv? || s.procs[pid].state.RecTim?) ==>
              var s1 := SetProc(s, pid, s.procs[pid].(msg := msg, hasmsg := true));
              var s2 := if s.procs[pid].state.Recv? then s1 else K.Unsleep(s1, pid);
              && pid != s.currpid && OnNoList(s2.lists, pid) && s2.procs[pid].prio >= 0 && !BadPid(s2, pid)
              && Core(MakeReady(s2, pid)) && MakeReady(s2, pid).procs[s.currpid].state.Curr?
              && (s.procs[pid].state.RecTim? ==> pid in s1.lists[SLEEPQ])
  {
    InvRuns(s);
    if !BadPid(s, pid) && (s.procs[pid].state.Recv? || s.procs[pid].state.RecTim?) {
      DeliverMidCore(s, pid, msg);
      var s1 := SetProc(s, pid, s.procs[pid].(msg := msg, hasmsg := true));
      var s2 := if s.procs[pid].state.Recv? then s1 else K.Unsleep(s1, pid);
      TransitOff(s2, pid);
    }
  }

  lemma EnterReceive(s: KState)
    requires Inv(s) && Enabled(s, Op.Receive)
    ensures CurrInRange(s) && s.ndefers >= 0
    ensures !s.procs[s.currpid].hasmsg ==>
              s.ndefers == 0 && Core(SetState(SetCont(s, s.currpid, InReceive), s.currpid, Recv))
  {
    if !s.procs[s.currpid].hasmsg { BlockMidCore(s, InReceive, Recv); }
  }

  lemma EnterKill(s: KState, pid: int)
    requires Inv(s) && Enabled(s, Op.Kill(pid))
    ensures CurrInRange(s)
    ensures !BadPid(s, pid) && pid != NULLPROC ==> Inv(SetCont(s, s.currpid, InKill(pid)))
  {
    if !BadPid(s, pid) && pid != NULLPROC { SetContInv(s, InKill(pid)); }
  }

  lemma EnterKillRest(s: KState, p: int)
    requires Inv(s) && 0 < p < NPROC && (p == s.currpid ==> s.ndefers == 0)
    ensures CurrInRange(s) && s.ndefers >= 0
    ensures s.procs[p].state.Curr? ==> p == s.currpid && s.ndefers == 0 && Core(SetFree(s, p))
    ensures s.procs[p].state.Sleep? || s.procs[p].state.RecTim? ==> p in s.lists[SLEEPQ]
    ensures s.procs[p].state.Wait? ==> 0 <= s.procs[p].sem < NSEM && p in s.lists[s.procs[p].sem]
    ensures s.procs[p].state.Ready? ==> p in s.lists[READYQ]
  {
    InvRuns(s);
    AtHome(s, p);
    if s.procs[p].state.Curr? {
      Lift(s, p);
      SetFreeCore(s, p);
    }
  }

  lemma EnterTick(s: KState)
    requires Inv(s) && Enabled(s, Tick)
    ensures CurrInRange(s) && s.ndefers >= 0
    ensures var s1 := DecFirst(SetCont(s, s.currpid, InTick));
            Core(s1) && Core(WakeLoop(s1)) && WakeLoop(s1).procs[s.currpid].state.Curr?
  {
    SetContInv(s, InTick);
    DecFirstInv(SetCont(s, s.currpid, InTick));
    WakeLoopRest(DecFirst(SetCont(s, s.currpid, InTick)));
    hide DecFirst, WakeLoop;
  }

  /** The slot `newpid` will find. */
  function NextFree(s: KState): (r: Option<nat>)
    ensures r.Some? ==> r.value < NPROC
  {
    FindPid(s.procs, s.nextpid, 0)
  }

  /** The table entry of a new process. */
  function Filled(s: KState, pid: int, prio: int): KState
    requires 0 <= pid < NPROC
  {
    SetCont(SetProc(s, pid, Proc(Susp, prio, -1, s.currpid, false, s.procs[pid].msg)), pid, NoCont)
  }

  lemma CreateCases(s: KState, prio: int)
    requires CurrInRange(s)
    ensures match NextFree(s)
            case None => CreateOp(s, true, prio) == s.(nextpid := AfterFullScan(s.nextpid))
            case Some(pid) =>
              var s1 := s.(nextpid := pid + 1);
              CreateOp(s, true, prio) == if prio < 1 then s1 else Filled(s1, pid, prio)
  {
    hide FindPid, Slot, AfterFullScan;
  }

  lemma EnterYield(s: KState)
    requires Inv(s)
    ensures CurrInRange(s) && s.ndefers >= 0 && Core(s) && s.procs[s.currpid].state.Curr?
  {
  }

  lemma {:induction false} WakeLoopStep(s: KState)
    requires Core(s) && s.lists[SLEEPQ] != []
    ensures 0 <= s.lists[SLEEPQ][0] < NPROC
    ensures s.keys[s.lists[SLEEPQ][0]] <= 0 ==>
              WakeLoop(s) == WakeLoop(ReleaseFirst(s, SLEEPQ))
                && |ReleaseFirst(s, SLEEPQ).lists[SLEEPQ]| < |s.lists[SLEEPQ]|
    ensures s.keys[s.lists[SLEEPQ][0]] > 0 ==> WakeLoop(s) == s
  {
    ReleaseFirstFrame(s, SLEEPQ);
  }

  lemma MakeReadyKeeps(s: KState, p: int)
    requires 0 <= p < NPROC
    ensures MakeReady(s, p).currpid == s.currpid && MakeReady(s, p).ndefers == s.ndefers
  {
  }

  lemma UnsleepKeeps(s: KState, p: int)
    requires 0 <= p < NPROC
    ensures K.Unsleep(s, p).currpid == s.currpid && K.Unsleep(s, p).ndefers == s.ndefers
    ensures K.Unsleep(s, p).procs == s.procs
  {
  }

  lemma InsertDKeeps(s: KState, p: int, key: int)
    requires 0 <= p < NPROC
    ensures K.InsertD(s, p, key).currpid == s.currpid && K.InsertD(s, p, key).ndefers == s.ndefers
    ensures K.InsertD(s, p, key).procs == s.procs
  {
  }

  lemma DecFirstKeeps(s: KState)
    ensures DecFirst(s).lists == s.lists && DecFirst(s).currpid == s.currpid && DecFirst(s).ndefers == s.ndefers
  {
  }

  lemma WakeLoopEmpty(s: KState)
    ensures s.lists[SLEEPQ] == [] ==> K.WakeLoop(s) == s
  {
  }

  lemma FullCircle(start: nat)
    ensures Slot(start, 0) == start % 100 && Slot(start, 99) == (start + 99) % 100
    ensures start < 100 ==> Slot(start, 0) == start && Slot(start, 100) == start
  {
  }

  lemma FindSemStep(sems: seq<Sem>, start: nat, i: nat)
    requires |sems| == NSEM && i <= NSEM
    ensures FindSem(sems, start, i) ==
              if i == NSEM then None
              else if !sems[Slot(start, i)].used then Some(Slot(start, i))
              else FindSem(sems, start, i + 1)
  {
  }

  lemma FindPidStep(procs: seq<Proc>, start: nat, i: nat)
    requires |procs| == NPROC && i <= NPROC
    ensures FindPid(procs, start, i) ==
              if i == NPROC then None
              else if procs[Slot(start, i)].state.Free? then Some(Slot(start, i))
              else FindPid(procs, start, i + 1)
  {
  }

  lemma SamePrivate(s: KState, t: KState, sem: int)
    requires t.pools == s.pools
    ensures Private(t, sem) == Private(s, sem)
  {
  }

  /** All queues empty and linked, all keys zero: the table boot leaves. */
  lemma BootDenotes(tab: seq<QEntry>)
    requires |tab| == NQENT && (forall p :: 0 <= p < NPROC ==> tab[p].qkey == 0)
    requires forall j :: 0 <= j < NLISTS ==> Linked(tab, QueueHead(j), [])
    ensures Denotes(tab, Boot().keys, Boot().lists)
  {
    assert forall j :: 0 <= j < NLISTS ==> Boot().lists[j] == [];
    hide Linked;
  }

  lemma RestCounts(s: KState)
    requires Rest(s)
    ensures SemOK(s)
  {
  }

  lemma SemQueue(s: KState, sem: int)
    requires SemOK(s) && 0 <= sem < NSEM && s.sems[sem].used
    ensures |s.lists[sem]| == Pos(-s.sems[sem].count)
    ensures IsQueue(QueueHead(sem)) && ListOf(QueueHead(sem)) == sem
  {
  }

  lemma DrainStep(s: KState, k: int)
    requires Core(s) && 0 <= k < NSEM && s.lists[k] != []
    ensures ReleaseAll(s, k) == ReleaseAll(ReleaseFirst(s, k), k)
    ensures var t := ReleaseFirst(s, k);
            t.sems == s.sems && t.lists[k] == s.lists[k][1..] && t.ndefers == s.ndefers && t.currpid == s.currpid
    ensures IsQueue(QueueHead(k)) && ListOf(QueueHead(k)) == k
  {
    ReleaseFirstFrame(s, k);
  }

  lemma DrainDone(s: KState, k: int)
    requires 0 <= k < NSEM && s.lists[k] == []
    ensures ReleaseAll(s, k) == s
  {
  }

  /** A process whose state ties it to no queue is on none. */
  lemma OffLists(s: KState, p: int)
    requires Core(s) && 0 <= p < NPROC && Home(s.procs[p]) == -1
    ensures OnNoList(s.lists, p)
  {
  }
}
