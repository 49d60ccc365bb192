/**
 What each step does to the process table, the pending continuations and the semaphore table,
 entry by entry and field by field.  Entries a call does not name stay as they were, except that
 a reschedule turns running into ready and one ready process into the running one.
 */
module KernelTables {
  import opened Wrappers
  import opened KernelState
  import opened KernelInvariant
  import opened KernelSteps
  import opened KernelSafety
  import opened KernelRuns
  import opened KernelFacts
  import opened KernelOrder
  import opened KernelPools
  import opened KernelShape

  predicate Alive(s: KState, p: int) { 0 <= p < NPROC && !s.procs[p].state.Free? }

  predicate InUse(s: KState, k: int) { 0 <= k < NSEM && s.sems[k].used }

  /** How many slots a cyclic search from `start` passes before it comes to `i`. */
  function Round(start: nat, i: int): nat { (i - start) % 100 }

  /** `q` is the first free process entry at or after `nextpid`, cyclically. */
  predicate FirstPid(s: KState, q: int) {
    && 0 <= q < NPROC && s.procs[q].state.Free?
    && forall j :: 0 <= j < NPROC && Round(s.nextpid, j) < Round(s.nextpid, q) ==> !s.procs[j].state.Free?
  }

  /** `k` is the first free semaphore at or after `nextsem`, cyclically. */
  predicate FirstSem(s: KState, k: int) {
    && 0 <= k < NSEM && !s.sems[k].used
    && forall j :: 0 <= j < NSEM && Round(s.nextsem, j) < Round(s.nextsem, k) ==> s.sems[j].used
  }

  /** The process `create` starts, if any. */
  predicate Starts(s: KState, op: Op, q: int) { op.Create? && op.stack && op.prio >= 1 && FirstPid(s, q) }

  /** The message a step puts into the box of `q`. */
  function Mail(s: KState, op: Op, q: int): Option<int>
    requires 0 <= q < NPROC
  {
    if !Alive(s, q) || s.procs[q].hasmsg then None
    else match op
      case Send(p, m) => if p == q then Some(m) else None
      case Kill(p) => if Alive(s, p) && p != 0 && s.procs[p].parent == q then Some(p) else None
      case _ => None
  }

  /** A blocked receiver becomes ready with its message. */
  function Delivered(pr: Proc, m: Option<int>): Proc {
    if m.None? then pr
    else pr.(msg := m.value, hasmsg := true, state := if pr.state.Recv? || pr.state.RecTim? then Ready else pr.state)
  }

  /** The entry of `q` after a step, as far as the call itself determines it. */
  ghost function Entry(s: KState, op: Op, q: int): Proc
    requires CurrInRange(s) && 0 <= q < NPROC
  {
    var pr, k, mine := s.procs[q], Target(s, op), q == s.currpid;
    match op
    case WaitFor(_) => if 0 <= k < NSEM && Arrived(s, op, k) == [q] then pr.(state := Wait, sem := k) else pr
    case Getbuf(_) => if 0 <= k < NSEM && Arrived(s, op, k) == [q] then pr.(state := Wait, sem := k) else pr
    case Signal(_) => if 0 <= k < NSEM && q in Released(s, op, k) then pr.(state := Ready) else pr
    case Signaln(_, _) => if 0 <= k < NSEM && q in Released(s, op, k) then pr.(state := Ready) else pr
    case Semdelete(_) => if 0 <= k < NSEM && q in Released(s, op, k) then pr.(state := Ready) else pr
    case Semreset(_, _) => if 0 <= k < NSEM && q in Released(s, op, k) then pr.(state := Ready) else pr
    case Freebuf(_, _) => if 0 <= k < NSEM && q in Released(s, op, k) then pr.(state := Ready) else pr
    case Create(_, prio) => if Starts(s, op, q) then Proc(Susp, prio, -1, s.currpid, false, pr.msg) else pr
    case Resume(p) => if p == q && pr.state.Susp? then pr.(state := Ready) else pr
    case Suspend(p) => if p == q && q != 0 && (pr.state.Ready? || pr.state.Curr?) then pr.(state := Susp) else pr
    case Sleepms(d) => if mine && d != 0 then pr.(state := Sleep) else pr
    case Send(_, _) => Delivered(pr, Mail(s, op, q))
    case Kill(_) => Delivered(pr, Mail(s, op, q))
    case Receive => if mine && !pr.hasmsg then pr.(state := Recv) else pr
    case Recvtime(w) => if mine && w >= 0 && !pr.hasmsg then pr.(state := RecTim) else pr
    case Recvclr => if mine then pr.(hasmsg := false) else pr
    case Tick => if q in s.lists[SLEEPQ] && q !in Step(s, op).lists[SLEEPQ] then pr.(state := Ready) else pr
    case Finish =>
      if Victim(s, op) == q then pr.(state := Free)
      else if mine && (s.conts[q].InReceive? || s.conts[q].InRecvtime?) then pr.(hasmsg := false)
      else pr
    case _ => pr
  }

  /** The continuation of `q` after a step. */
  function ContAfter(s: KState, op: Op, q: int): Cont
    requires CurrInRange(s) && 0 <= q < NPROC
  {
    var c, mine := s.conts[q], q == s.currpid;
    match op
    case Receive => if mine then InReceive else c
    case Recvtime(w) => if mine && w >= 0 then InRecvtime else c
    case Getbuf(i) => if mine && 0 <= i < |s.pools| then InGetbuf(i) else c
    case Nbgetbuf(i) =>
      var k := Target(s, op);
      if mine && InUse(s, k) && s.sems[k].count > 0 then InGetbuf(i) else c
    case Kill(p) => if mine && Alive(s, p) && p != 0 then InKill(p) else c
    case Tick => if mine then InTick else c
    case Create(_, _) => if Starts(s, op, q) then NoCont else c
    case Finish => if mine || Victim(s, op) == q then NoCont else c
    case _ => c
  }

  /** The semaphore a new buffer pool gets, if one is made. */
  predicate MakesPool(s: KState, op: Op) {
    && op.Mkbufpool? && 8 <= op.bufsiz <= 8192 && 1 <= op.numbufs <= 2048 && op.mem.Some?
    && |s.pools| < 20
  }

  /** The entry of semaphore `k` after a step. */
  function SemAfter(s: KState, op: Op, k: int): Sem
    requires CurrInRange(s) && 0 <= k < NSEM
  {
    var e, hit, v := s.sems[k], InUse(s, k) && Target(s, op) == k, Victim(s, op);
    match op
    case WaitFor(_) => if hit then Sem(true, e.count - 1) else e
    case Getbuf(_) => if hit then Sem(true, e.count - 1) else e
    case Nbgetbuf(_) => if hit && e.count > 0 then Sem(true, e.count - 1) else e
    case Signal(_) => if hit then Sem(true, e.count + 1) else e
    case Freebuf(_, _) => if hit then Sem(true, e.count + 1) else e
    case Signaln(_, n) => if hit && n > 0 then Sem(true, e.count + n) else e
    case Semdelete(_) => if hit then Sem(false, 1 + if e.count > 0 then e.count else 0) else e
    case Semreset(_, n) => if hit && n >= 0 then Sem(true, n) else e
    case Semcreate(n) => if n >= 0 && FirstSem(s, k) then Sem(true, n) else e
    case Mkbufpool(_, n, _) => if MakesPool(s, op) && FirstSem(s, k) then Sem(true, n) else e
    case Finish =>
      if Alive(s, v) && s.procs[v].state.Wait? && s.procs[v].sem == k then e.(count := e.count + 1) else e
    case _ => e
  }

  // ---- cyclic searches -------------------------------------------------------------

  lemma RoundSlot(start: nat, n: nat)
    requires n < 100
    ensures Round(start, Slot(start, n)) == n
  {
  }

  lemma SlotRound(start: nat, i: int)
    requires 0 <= i < 100
    ensures Round(start, i) < 100 && Slot(start, Round(start, i)) == i
  {
  }

  lemma {:induction false} FindPidFrom(procs: seq<Proc>, start: nat, n: nat) returns (m: nat)
    requires |procs| == NPROC && n <= NPROC && FindPid(procs, start, n).Some?
    ensures n <= m < NPROC && FindPid(procs, start, n) == Some(Slot(start, m)) && procs[Slot(start, m)].state.Free?
    ensures forall j: nat :: n <= j < m ==> !procs[Slot(start, j)].state.Free?
    decreases NPROC - n
  {
    hide Slot;
    if procs[Slot(start, n)].state.Free? {
      m := n;
    } else {
      m := FindPidFrom(procs, start, n + 1);
    }
  }

  /** `newpid` answers the first free entry. */
  lemma FirstPidFound(s: KState, q: int)
    ensures FirstPid(s, q) <==> 0 <= q && FindPid(s.procs, s.nextpid, 0) == Some(q)
  {
    hide Slot, Round;
    if FindPid(s.procs, s.nextpid, 0).Some? {
      var m := FindPidFrom(s.procs, s.nextpid, 0);
      RoundSlot(s.nextpid, m);
      forall j | 0 <= j < NPROC && Round(s.nextpid, j) < m
        ensures !s.procs[j].state.Free?
      {
        SlotRound(s.nextpid, j);
      }
      if FirstPid(s, q) { SlotRound(s.nextpid, q); }
    } else {
      FindPidComplete(s.procs, s.nextpid);
    }
  }

  lemma {:induction false} FindSemFrom(sems: seq<Sem>, start: nat, n: nat) returns (m: nat)
    requires |sems| == NSEM && n <= NSEM && FindSem(sems, start, n).Some?
    ensures n <= m < NSEM && FindSem(sems, start, n) == Some(Slot(start, m)) && !sems[Slot(start, m)].used
    ensures forall j: nat :: n <= j < m ==> sems[Slot(start, j)].used
    decreases NSEM - n
  {
    hide Slot;
    if !sems[Slot(start, n)].used {
      m := n;
    } else {
      m := FindSemFrom(sems, start, n + 1);
    }
  }

  /** `newsem` answers the first free semaphore. */
  lemma FirstSemFound(s: KState, k: int)
    ensures FirstSem(s, k) <==> 0 <= k && FindSem(s.sems, s.nextsem, 0) == Some(k)
  {
    hide Slot, Round;
    if FindSem(s.sems, s.nextsem, 0).Some? {
      var m := FindSemFrom(s.sems, s.nextsem, 0);
      RoundSlot(s.nextsem, m);
      forall j | 0 <= j < NSEM && Round(s.nextsem, j) < m
        ensures s.sems[j].used
      {
        SlotRound(s.nextsem, j);
      }
      if FirstSem(s, k) { SlotRound(s.nextsem, k); }
    } else {
      FindSemComplete(s.sems, s.nextsem);
    }
  }

  // ---- releasing -------------------------------------------------------------------

  lemma {:induction false} SignalManyProcs(s: KState, k: int, n: nat, q: int)
    requires Core(s) && Rest(s) && 0 <= k < NSEM && s.sems[k].used && !Private(s, k) && 0 <= q < NPROC
    ensures SignalMany(s, k, n).procs[q] ==
              if q in s.lists[k][..Min(n, |s.lists[k]|)] then s.procs[q].(state := Ready) else s.procs[q]
    decreases n
  {
    hide CoreX, SignalOne;
    if n > 0 {
      SignalOneRest(s, k);
      SignalOneFrame(s, k);
      var l, t := s.lists[k], SignalOne(s, k);
      SignalManyProcs(t, k, n - 1, q);
      assert SemOK(s);
      if l != [] { assert l[..Min(n, |l|)] == [l[0]] + l[1..][..Min(n - 1, |l| - 1)]; }
    }
  }

  lemma {:induction false} ReleaseAllProcs(s: KState, k: int, q: int)
    requires Core(s) && 0 <= k < NSEM && 0 <= q < NPROC
    ensures ReleaseAll(s, k).procs[q] == if q in s.lists[k] then s.procs[q].(state := Ready) else s.procs[q]
    decreases |s.lists[k]|
  {
    hide CoreX, ReleaseFirst;
    if s.lists[k] != [] {
      ReleaseFirstCore(s, k);
      ReleaseFirstFrame(s, k);
      ReleaseAllProcs(ReleaseFirst(s, k), k, q);
      assert s.lists[k] == [s.lists[k][0]] + s.lists[k][1..];
    }
  }

  lemma {:induction false} WakeLoopProcs(s: KState, q: int)
    requires Core(s) && 0 <= q < NPROC
    ensures var t := WakeLoop(s);
            && (q in t.lists[SLEEPQ] ==> q in s.lists[SLEEPQ])
            && t.procs[q] == if q in s.lists[SLEEPQ] && q !in t.lists[SLEEPQ] then s.procs[q].(state := Ready)
                             else s.procs[q]
    decreases |s.lists[SLEEPQ]|
  {
    var l := s.lists[SLEEPQ];
    assert NoDup(l);
    hide CoreX, ReleaseFirst, NoDup;
    if !(l == [] || !(0 <= l[0] < NPROC) || s.keys[l[0]] > 0) {
      ReleaseFirstCore(s, SLEEPQ);
      ReleaseFirstFrame(s, SLEEPQ);
      WakeLoopProcs(ReleaseFirst(s, SLEEPQ), q);
      HeadOnce(l, q);
    }
  }

  lemma HeadOnce(l: seq<int>, q: int)
    requires NoDup(l) && l != []
    ensures q in l <==> q == l[0] || q in l[1..]
    ensures l[0] !in l[1..]
  {
    assert l == [l[0]] + l[1..];
  }

  // ---- the effect on one process entry ---------------------------------------------

  /** Before any `resched` the entries and continuations are already as stated. */
  ghost predicate Shows(s: KState, op: Op, m: KState, q: int)
    requires CurrInRange(s) && 0 <= q < NPROC
  {
    m.procs[q] == Entry(s, op, q) && m.conts[q] == ContAfter(s, op, q)
  }

  lemma WaitShows(s: KState, k: int, c: Cont, q: int)
    requires CurrInRange(s) && 0 <= q < NPROC
    ensures var m := WaitEffect(SetCont(s, s.currpid, c), k).state;
            && m.procs[q] == (if InUse(s, k) && s.sems[k].count <= 0 && q == s.currpid
                              then s.procs[q].(state := Wait, sem := k) else s.procs[q])
            && m.conts[q] == if q == s.currpid then c else s.conts[q]
  {
  }

  lemma WaitForShows(s: KState, op: Op, q: int)
    requires CurrInRange(s) && 0 <= q < NPROC && (op.WaitFor? || op.Getbuf?)
    ensures Shows(s, op, EffectOf(s, op).state, q)
  {
    hide WaitEffect;
    if op.WaitFor? {
      assert SetCont(s, s.currpid, s.conts[s.currpid]) == s;
      WaitShows(s, op.sem, s.conts[s.currpid], q);
    } else if 0 <= op.pool < |s.pools| {
      WaitShows(s, s.pools[op.pool].sem, InGetbuf(op.pool), q);
    }
  }

  lemma NbgetbufShows(s: KState, i: int, q: int)
    requires CurrInRange(s) && 0 <= q < NPROC
    ensures Shows(s, Nbgetbuf(i), NbgetbufOp(s, i), q)
  {
    hide Resched;
  }

  /** Signals release from the head of the queue. */
  lemma SignalShows(s: KState, k: int, q: int)
    requires CanSignal(s) && 0 <= q < NPROC
    ensures var m := SignalEffect(s, k).state;
            && m.conts == s.conts
            && m.procs[q] == if InUse(s, k) && q in s.lists[k][..Min(1, |s.lists[k]|)]
                             then s.procs[q].(state := Ready) else s.procs[q]
  {
    hide CoreX, SignalOne;
    if InUse(s, k) { SignalOneFrame(s, k); }
  }

  lemma SignalsShow(s: KState, op: Op, q: int)
    requires Inv(s) && 0 <= q < NPROC && (op.Signal? || op.Freebuf?)
    ensures CurrInRange(s) && Shows(s, op, EffectOf(s, op).state, q)
  {
    EnterYield(s);
    assert SemOK(s);
    hide CoreX, Rest, SignalEffect;
    if op.Signal? {
      SignalShows(s, op.sem, q);
      if 0 <= op.sem < NSEM { FreeEmpty(s, op.sem); }
    } else if 0 <= op.pool < |s.pools| {
      var s1 := s.(pools := s.pools[op.pool := Pushed(s.pools[op.pool], op.buf)]);
      var k := s.pools[op.pool].sem;
      FreebufMaySignal(s, s1.pools);
      SignalShows(s1, k, q);
      if 0 <= k < NSEM { FreeEmpty(s, k); }
    }
  }

  lemma {:induction false} SignalManyConts(s: KState, k: int, n: nat)
    requires 0 <= k < NSEM
    ensures SignalMany(s, k, n).conts == s.conts
    decreases n
  {
    if n > 0 { SignalManyConts(SignalOne(s, k), k, n - 1); }
  }

  lemma SyncShows(s: KState, op: Op, q: int)
    requires Inv(s) && Enabled(s, op) && 0 <= q < NPROC && (op.Signaln? || op.Semdelete? || op.Semreset?)
    ensures Shows(s, op, EffectOf(s, op).state, q)
  {
    EnterSem(s, op.sem);
    assert SemOK(s);
    hide CoreX, Rest, SignalMany, ReleaseAll, Private;
    var k := op.sem;
    if !BadSem(s, k) {
      if op.Signaln? {
        if op.count >= 0 {
          SignalManyProcs(s, k, op.count, q);
          SignalManyConts(s, k, op.count);
        } else {
          assert s.lists[k][..0] == [];
        }
      } else {
        ReleaseAllProcs(s, k, q);
        ReleaseAllMid(s, k);
      }
    } else if 0 <= k < NSEM {
      FreeEmpty(s, k);
    }
  }

  lemma CreateShows(s: KState, stack: bool, prio: int, q: int)
    requires CurrInRange(s) && 0 <= q < NPROC
    ensures Shows(s, Create(stack, prio), CreateOp(s, stack, prio), q)
  {
    hide FindPid, FirstPid, Slot;
    FirstPidFound(s, q);
  }

  lemma ProcessShows(s: KState, op: Op, q: int)
    requires Inv(s) && Enabled(s, op) && 0 <= q < NPROC && (op.Resume? || op.Suspend? || op.Recvclr? || op.Receive?)
    ensures Shows(s, op, EffectOf(s, op).state, q)
  {
    hide CoreX, Rest, Resched, KeyPos, Remove, Private;
  }

  lemma TimedShows(s: KState, op: Op, q: int)
    requires CurrInRange(s) && 0 <= q < NPROC && (op.Sleepms? || op.Recvtime?)
    ensures Shows(s, op, EffectOf(s, op).state, q)
  {
    hide DeltaPos, W32, Resched;
  }

  lemma MailShows(s: KState, p: int, msg: int, q: int)
    requires CurrInRange(s) && 0 <= q < NPROC
    ensures var m := SendEffect(s, p, msg).state;
            && m.conts == s.conts
            && m.procs[q] == if p == q && Alive(s, q) && !s.procs[q].hasmsg then Delivered(s.procs[q], Some(msg))
                             else s.procs[q]
  {
    hide KeyPos, Remove, W32, IndexOf;
  }

  lemma SendShows(s: KState, op: Op, q: int)
    requires CurrInRange(s) && 0 <= q < NPROC && (op.Send? || op.Kill?)
    ensures Shows(s, op, EffectOf(s, op).state, q)
  {
    hide SendEffect;
    if op.Send? {
      MailShows(s, op.pid, op.msg, q);
    } else if !BadPid(s, op.pid) && op.pid != NULLPROC {
      MailShows(SetCont(s, s.currpid, InKill(op.pid)), s.procs[op.pid].parent, op.pid, q);
    }
  }

  lemma TickSleepers(s: KState)
    requires CurrInRange(s)
    ensures Step(s, Tick).lists[SLEEPQ] == TickEffect(s).state.lists[SLEEPQ]
  {
    hide DecFirst, WakeLoop, Resched;
  }

  lemma WakeShows(s: KState, s1: KState, q: int)
    requires Core(s1) && 0 <= q < NPROC && s1.procs == s.procs && s1.lists == s.lists
    ensures var t := WakeLoop(s1);
            && t.conts == s1.conts
            && t.procs[q] == if q in s.lists[SLEEPQ] && q !in t.lists[SLEEPQ] then s.procs[q].(state := Ready)
                             else s.procs[q]
  {
    hide CoreX, WakeLoop;
    WakeLoopProcs(s1, q);
    WakeLoopSems(s1);
  }

  lemma TickEntry(s: KState, q: int)
    requires CurrInRange(s) && 0 <= q < NPROC
    ensures Entry(s, Tick, q) ==
              if q in s.lists[SLEEPQ] && q !in TickEffect(s).state.lists[SLEEPQ] then s.procs[q].(state := Ready)
              else s.procs[q]
    ensures ContAfter(s, Tick, q) == if q == s.currpid then InTick else s.conts[q]
  {
    hide Step, TickEffect;
    TickSleepers(s);
  }

  lemma TickShows(s: KState, q: int)
    requires Inv(s) && Enabled(s, Tick) && 0 <= q < NPROC
    ensures Shows(s, Tick, TickEffect(s).state, q)
  {
    hide Inv, CoreX, DecFirst, WakeLoop, Step, Entry, ContAfter, Enabled;
    EnterTick(s);
    TickEntry(s, q);
    DecFirstProcs(SetCont(s, s.currpid, InTick));
    WakeShows(s, DecFirst(SetCont(s, s.currpid, InTick)), q);
  }

  lemma DecFirstProcs(s: KState)
    ensures DecFirst(s).procs == s.procs && DecFirst(s).lists == s.lists && DecFirst(s).conts == s.conts
  {
  }

  lemma KillShows(s: KState, p: int)
    requires CurrInRange(s) && 0 <= p < NPROC && !s.procs[p].state.Curr?
    requires s.procs[p].state.Wait? ==> 0 <= s.procs[p].sem < NSEM
    ensures KillRest(s, p).procs == s.procs[p := s.procs[p].(state := Free)]
    ensures KillRest(s, p).conts == s.conts[p := NoCont]
  {
    hide Resched, Remove, W32, IndexOf, SetFree;
    var pr := s.procs[p];
    match pr.state
    case Sleep => FreedKeeps(Unsleep(s, p), p);
    case RecTim => FreedKeeps(Unsleep(s, p), p);
    case Wait => FreedKeeps(Unlink(SetCount(s, pr.sem, s.sems[pr.sem].count + 1), p, pr.sem), p);
    case Ready => FreedKeeps(Unlink(s, p, READYQ), p);
    case _ => FreedKeeps(s, p);
  }

  lemma KillEntry(s: KState, q: int)
    requires CurrInRange(s) && s.conts[s.currpid].InKill? && 0 <= q < NPROC
    ensures var p := s.conts[s.currpid].pid;
            && Entry(s, Finish, q) == (if q == p then s.procs[q].(state := Free) else s.procs[q])
            && ContAfter(s, Finish, q) == if q == s.currpid || q == p then NoCont else s.conts[q]
  {
  }

  lemma KillingShows(s: KState, q: int)
    requires CurrInRange(s) && Core(s) && s.conts[s.currpid].InKill? && 0 < s.conts[s.currpid].pid < NPROC
    requires 0 <= q < NPROC
    ensures Shows(s, Finish, FinishEffect(s).state, q)
  {
    hide CoreX, KillRest, SetFree, Entry, ContAfter;
    var p := s.conts[s.currpid].pid;
    var s1 := SetCont(s, s.currpid, NoCont);
    AtHome(s, p);
    KillEntry(s, q);
    if s.procs[p].state.Curr? { FreedKeeps(s1, p); } else { KillShows(s1, p); }
  }

  lemma ResumedShows(s: KState, q: int)
    requires CurrInRange(s) && !s.conts[s.currpid].InKill? && 0 <= q < NPROC
    ensures Shows(s, Finish, FinishEffect(s).state, q)
  {
    hide KillRest, Resched, SetFree;
  }

  lemma FinishShows(s: KState, q: int)
    requires Inv(s) && Enabled(s, Finish) && 0 <= q < NPROC
    ensures Shows(s, Finish, FinishEffect(s).state, q)
  {
    EnterYield(s);
    Fits(s, s.currpid);
    hide Inv, CoreX, Rest, FinishEffect, Shows;
    if s.conts[s.currpid].InKill? { KillingShows(s, q); } else { ResumedShows(s, q); }
  }

  lemma TableShows(s: KState, op: Op, q: int)
    requires CurrInRange(s) && 0 <= q < NPROC
    requires op.Yield? || op.Semcreate? || op.Start? || op.Stop? || op.Mkbufpool?
    ensures Shows(s, op, EffectOf(s, op).state, q)
  {
    hide FindSem, Resched, PoolBufs;
  }

  lemma EffectShows(s: KState, op: Op, q: int)
    requires Inv(s) && Enabled(s, op) && 0 <= q < NPROC
    ensures Shows(s, op, EffectOf(s, op).state, q)
  {
    InvRuns(s);
    if op.WaitFor? || op.Getbuf? {
      WaitForShows(s, op, q);
    } else if op.Nbgetbuf? {
      NbgetbufShows(s, op.pool, q);
    } else if op.Signal? || op.Freebuf? {
      SignalsShow(s, op, q);
    } else if op.Signaln? || op.Semdelete? || op.Semreset? {
      SyncShows(s, op, q);
    } else if op.Create? {
      CreateShows(s, op.stack, op.prio, q);
    } else if op.Resume? || op.Suspend? || op.Recvclr? || op.Receive? {
      ProcessShows(s, op, q);
    } else if op.Sleepms? || op.Recvtime? {
      TimedShows(s, op, q);
    } else if op.Send? || op.Kill? {
      SendShows(s, op, q);
    } else if op.Tick? {
      TickShows(s, q);
    } else if op.Finish? {
      FinishShows(s, q);
    } else {
      TableShows(s, op, q);
    }
    hide Inv, Enabled, Shows, TickEffect, FinishEffect, WaitEffect, SignalEffect, SendEffect, FreebufEffect,
      DelayEffect, ReceiveEffect, RecvtimeEffect, SuspendEffect, StopEffect, CreateOp, NbgetbufOp;
  }

  // ---- every step ------------------------------------------------------------------

  /** An entry as a reschedule leaves it: running, or ready if it was running. */
  function Scheduled(pr: Proc, runs: bool): Proc {
    if runs then pr.(state := Curr) else if pr.state.Curr? then pr.(state := Ready) else pr
  }

  /** Every entry of the process table after every step, in all its fields. */
  lemma EntryStep(s: KState, op: Op, q: int)
    requires Inv(s) && Enabled(s, op) && 0 <= q < NPROC
    ensures var t, pr := Step(s, op), Entry(s, op, q);
            && t.procs[q] == Scheduled(pr, q == t.currpid)
            && (q == t.currpid ==> pr.state.Ready? || pr.state.Curr?)
  {
    InvRuns(s);
    StepInv(s, op);
    InvRuns(Step(s, op));
    EffectShows(s, op, q);
    StepShape(s, op);
    StepReaches(s, op);
    hide Inv, Enabled, Step, EffectOf, CoreX, Resched, Entry, ContAfter;
    if EffectOf(s, op).resched { ReschedFrame(EffectOf(s, op).state); }
  }

  /** Every pending continuation after every step. */
  lemma ContStep(s: KState, op: Op, q: int)
    requires Inv(s) && Enabled(s, op) && 0 <= q < NPROC
    ensures Step(s, op).conts[q] == ContAfter(s, op, q)
  {
    InvRuns(s);
    EffectShows(s, op, q);
    StepShape(s, op);
    hide Inv, Enabled, Step, EffectOf, Resched, Entry, ContAfter;
  }

  lemma MakesSem(s: KState, op: Op, k: int)
    requires CurrInRange(s) && 0 <= k < NSEM && (op.Semcreate? || op.Mkbufpool?)
    ensures Step(s, op).sems[k] == SemAfter(s, op, k)
  {
    FirstSemFound(s, k);
    hide FindSem, FirstSem, PoolBufs;
  }

  lemma DrainsSem(s: KState, op: Op, k: int)
    requires Inv(s) && Enabled(s, op) && 0 <= k < NSEM && (op.Semdelete? || op.Semreset?)
    ensures Step(s, op).sems[k] == SemAfter(s, op, k)
    ensures Resets(s, op, k) && InUse(s, k) && (op.Semreset? ==> op.count >= 0) ==> Step(s, op).lists[k] == []
  {
    EnterSem(s, op.sem);
    hide Inv, CoreX, Rest, Resched, ReleaseAll, Private;
    if !BadSem(s, op.sem) {
      ReleaseAllSems(s, op.sem);
      ReleaseAllLists(s, op.sem, op.sem);
    }
  }

  lemma SignalsSem(s: KState, op: Op, k: int)
    requires CurrInRange(s) && 0 <= k < NSEM && (op.Signal? || op.Signaln? || op.Freebuf?)
    ensures Step(s, op).sems[k] == SemAfter(s, op, k)
  {
    hide Resched, KeyPos, InsertAt, SignalMany;
    if op.Signaln? && !BadSem(s, op.sem) && op.count >= 0 { SignalManyCount(s, op.sem, op.count); }
  }

  lemma WaitsSem(s: KState, op: Op, k: int)
    requires CurrInRange(s) && 0 <= k < NSEM && (op.WaitFor? || op.Getbuf?)
    ensures Step(s, op).sems[k] == SemAfter(s, op, k)
  {
    hide Resched;
  }

  lemma NbgetbufSem(s: KState, i: int, k: int)
    requires CurrInRange(s) && 0 <= k < NSEM
    ensures NbgetbufOp(s, i).sems[k] == SemAfter(s, Nbgetbuf(i), k)
  {
    hide Resched;
  }

  lemma FinishSem(s: KState, k: int)
    requires Inv(s) && Enabled(s, Finish) && 0 <= k < NSEM
    ensures Step(s, Finish).sems[k] == SemAfter(s, Finish, k)
  {
    EnterYield(s);
    Fits(s, s.currpid);
    var c := s.conts[s.currpid];
    if c.InKill? {
      AtHome(s, c.pid);
      hide Inv, CoreX, Rest, KillRest;
      KillStep(SetCont(s, s.currpid, NoCont), c.pid, k);
    } else {
      hide Inv, CoreX, Rest, KillRest, Resched;
    }
  }

  /** Every entry of the semaphore table after every step, in all its fields; a reset or deleted
      semaphore has an empty queue. */
  lemma SemStep(s: KState, op: Op, k: int)
    requires Inv(s) && Enabled(s, op) && 0 <= k < NSEM
    ensures Step(s, op).sems[k] == SemAfter(s, op, k)
    ensures Resets(s, op, k) && InUse(s, k) && (op.Semreset? ==> op.count >= 0) ==> Step(s, op).lists[k] == []
  {
    InvRuns(s);
    if op.Semcreate? || op.Mkbufpool? {
      MakesSem(s, op, k);
    } else if op.Semdelete? || op.Semreset? {
      DrainsSem(s, op, k);
    } else if op.Signal? || op.Signaln? || op.Freebuf? {
      SignalsSem(s, op, k);
    } else if op.Nbgetbuf? {
      NbgetbufSem(s, op.pool, k);
    } else if op.WaitFor? || op.Getbuf? {
      WaitsSem(s, op, k);
    } else if op.Finish? {
      FinishSem(s, k);
    } else if op.Send? || op.Receive? || op.Recvclr? || op.Recvtime? || op.Kill? {
      QuietMessageStep(s, op);
    } else if op.Tick? {
      QuietTick(s);
    } else {
      QuietStep(s, op);
    }
    hide Inv, Enabled, Step;
  }

  // ---- pools, counters -------------------------------------------------------------

  /** The pools after a step; `k` is the semaphore a new pool gets. */
  function PoolsAfter(s: KState, op: Op, k: int): seq<Pool>
    requires CurrInRange(s)
  {
    var ps, c, v := s.pools, s.conts[s.currpid], Victim(s, op);
    match op
    case Freebuf(i, buf) =>
      if 0 <= i < |ps| then
        var b := ps[i];
        ps[i := Pool(b.sem, [buf] + b.free, b.lent - {buf}, b.lost)]
      else ps
    case Mkbufpool(size, n, mem) =>
      if MakesPool(s, op) && FirstSem(s, k) then ps + [Pool(k, PoolBufs(mem.value, size, n), {}, 0)] else ps
    case Finish =>
      if c.InGetbuf? && 0 <= c.pool < |ps| && ps[c.pool].free != [] then
        var b := ps[c.pool];
        ps[c.pool := Pool(b.sem, b.free[1..], b.lent + {b.free[0]}, b.lost)]
      else if Alive(s, v) && !s.procs[v].state.Wait? && s.conts[v].InGetbuf? && 0 <= s.conts[v].pool < |ps| then
        var b := ps[s.conts[v].pool];
        ps[s.conts[v].pool := Pool(b.sem, b.free, b.lent, b.lost + 1)]
      else ps
    case _ => ps
  }

  lemma MakesPools(s: KState, op: Op, k: int)
    requires CurrInRange(s) && op.Mkbufpool? && (FirstSem(s, k) || forall j :: 0 <= j < NSEM ==> s.sems[j].used)
    ensures Step(s, op).pools == PoolsAfter(s, op, k)
  {
    FirstSemFound(s, k);
    FindSemComplete(s.sems, s.nextsem);
    hide FindSem, FirstSem, PoolBufs;
  }

  lemma FreesPool(s: KState, p: int)
    requires 0 <= p < NPROC
    ensures var c, ps := s.conts[p], s.pools;
            SetFree(s, p).pools ==
              if Alive(s, p) && !s.procs[p].state.Wait? && c.InGetbuf? && 0 <= c.pool < |ps|
              then ps[c.pool := ps[c.pool].(lost := ps[c.pool].lost + 1)] else ps
  {
  }

  lemma KillsPool(s: KState, p: int)
    requires CurrInRange(s) && 0 <= p < NPROC && (s.procs[p].state.Wait? ==> 0 <= s.procs[p].sem < NSEM)
    ensures KillRest(s, p).pools == SetFree(s, p).pools
  {
    hide Resched, Remove, W32, IndexOf, SetFree;
    FreesPool(s, p);
    var pr := s.procs[p];
    match pr.state
    case Sleep => FreesPool(Unsleep(s, p), p);
    case RecTim => FreesPool(Unsleep(s, p), p);
    case Wait => FreesPool(Unlink(SetCount(s, pr.sem, s.sems[pr.sem].count + 1), p, pr.sem), p);
    case Ready => FreesPool(Unlink(s, p, READYQ), p);
    case _ =>
  }

  lemma KillingPool(s: KState, k: int)
    requires CurrInRange(s) && Core(s) && s.conts[s.currpid].InKill? && 0 < s.conts[s.currpid].pid < NPROC
    ensures FinishOp(s).pools == PoolsAfter(s, Finish, k)
  {
    hide CoreX, KillRest, SetFree;
    var p := s.conts[s.currpid].pid;
    var s1 := SetCont(s, s.currpid, NoCont);
    AtHome(s, p);
    KillsPool(s1, p);
    FreesPool(s1, p);
  }

  lemma ResumedPool(s: KState, k: int)
    requires CurrInRange(s) && !s.conts[s.currpid].InKill?
    ensures FinishOp(s).pools == PoolsAfter(s, Finish, k)
  {
    hide KillRest, Resched, SetFree;
  }

  lemma FinishPool(s: KState, k: int)
    requires Inv(s) && Enabled(s, Finish)
    ensures FinishOp(s).pools == PoolsAfter(s, Finish, k)
  {
    EnterYield(s);
    Fits(s, s.currpid);
    hide Inv, CoreX, Rest, FinishOp, PoolsAfter;
    if s.conts[s.currpid].InKill? { KillingPool(s, k); } else { ResumedPool(s, k); }
  }

  lemma FreebufPool(s: KState, i: int, buf: int, k: int)
    requires CurrInRange(s)
    ensures FreebufOp(s, i, buf).pools == PoolsAfter(s, Freebuf(i, buf), k)
  {
    hide SignalOp;
    if 0 <= i < |s.pools| { SignalPools(s.(pools := s.pools[i := Pushed(s.pools[i], buf)]), s.pools[i].sem); }
  }

  /** Every buffer pool after every step: the last buffer freed is the first handed out. */
  lemma PoolStep(s: KState, op: Op, k: int)
    requires Inv(s) && Enabled(s, op)
    requires op.Mkbufpool? ==> FirstSem(s, k) || forall j :: 0 <= j < NSEM ==> s.sems[j].used
    ensures Step(s, op).pools == PoolsAfter(s, op, k)
  {
    InvRuns(s);
    if op.Mkbufpool? {
      MakesPools(s, op, k);
    } else if op.Finish? {
      FinishPool(s, k);
    } else if op.Freebuf? {
      FreebufPool(s, op.pool, op.buf, k);
    } else if op.Send? || op.Receive? || op.Recvclr? || op.Recvtime? || op.Kill? {
      MessagePools(s, op);
    } else if op.WaitFor? || op.Signal? || op.Signaln? || op.Semdelete? || op.Semreset? || op.Getbuf? || op.Nbgetbuf? {
      SyncPools(s, op);
    } else {
      QuietPools(s, op);
    }
    hide Inv, Enabled, Step, FirstSem;
  }
}
