/**
 The abstract state of the kernel: the process, semaphore and buffer-pool tables and,
 for every queue threaded through `queuetab`, the sequence of process ids on it.

 A context switch inside a system call leaves work to be done when the process runs
 again (the lines after `resched`).  That saved program counter is the `Cont` of the
 process; a process with a pending continuation runs it before anything else, because
 interrupts stay disabled until the system call returns.
 */
module KernelState {
  import opened Wrappers

  const NPROC := 100
  const NSEM := 100
  const NBPOOLS := 20
  const NULLPROC := 0
  const QUANTUM := 2
  const EMPTY := -1
  const OK := 1
  const SYSERR := -1
  const TIMEOUT := 0xFFFF_FFFD   // -3 stored in an unsigned message
  const MAXKEY := 0x7FFF_FFFF
  const MINKEY := -0x8000_0000

  /** Queues are numbered in the order boot allocates them: one per semaphore, ready, sleep. */
  const READYQ := NSEM
  const SLEEPQ := NSEM + 1
  const NLISTS := NSEM + 2

  datatype PrState = Free | Curr | Ready | Recv | Sleep | Susp | Wait | RecTim

  datatype Proc = Proc(state: PrState, prio: int, sem: int, parent: int, hasmsg: bool, msg: int)

  datatype Sem = Sem(used: bool, count: int)

  datatype Cont = NoCont | InReceive | InRecvtime | InGetbuf(pool: int) | InKill(pid: int) | InTick

  /** A buffer pool: `free` is its chain of buffers, `lent` the buffers handed out, and
      `lost` counts processes killed after being granted a buffer they had not taken yet. */
  datatype Pool = Pool(sem: int, free: seq<int>, lent: set<int>, lost: nat)


  datatype State = State(
    procs: seq<Proc>, keys: seq<int>, lists: seq<seq<int>>, sems: seq<Sem>,
    conts: seq<Cont>, pools: seq<Pool>,
    currpid: int, preempt: int, ndefers: int, attempt: bool, nextpid: nat, nextsem: nat)

  predicate Sized(s: State) {
    && |s.procs| == NPROC && |s.keys| == NPROC && |s.conts| == NPROC
    && |s.lists| == NLISTS && |s.sems| == NSEM && s.nextsem < NSEM
  }

  type KState = s: State | Sized(s) witness Boot()

  function Boot(): State {
    State(
      seq(NPROC, i => Proc(if i == NULLPROC then Curr else Free, 0, 0, 0, false, 0)),
      seq(NPROC, i => 0), seq(NLISTS, i => []), seq(NSEM, i => Sem(false, 0)),
      seq(NPROC, i => NoCont), [], NULLPROC, QUANTUM, 0, false, 1, 0)
  }

  predicate CurrInRange(s: KState) { 0 <= s.currpid < NPROC }

  /** `isbadpid`, `isbadsem` followed by the S_FREE test. */
  predicate BadPid(s: KState, pid: int) { pid < 0 || pid >= NPROC || s.procs[pid].state.Free? }
  predicate BadSem(s: KState, sem: int) { sem < 0 || sem >= NSEM || !s.sems[sem].used }

  /** Two's complement narrowing to int32. */
  function W32(x: int): int { (x + 0x8000_0000) % 0x1_0000_0000 - 0x8000_0000 }

  // ---- sequences -------------------------------------------------------------------

  ghost predicate NoDup(l: seq<int>) { forall i, j :: 0 <= i < j < |l| ==> l[i] != l[j] }

  function InsertAt(l: seq<int>, i: nat, p: int): seq<int>
    requires i <= |l|
  {
    l[..i] + [p] + l[i..]
  }

  function IndexOf(l: seq<int>, p: int): (i: nat)
    ensures p in l ==> i < |l| && l[i] == p
    ensures p !in l ==> i == |l|
  {
    if l == [] || l[0] == p then 0 else 1 + IndexOf(l[1..], p)
  }

  function RemoveAt(l: seq<int>, i: nat): seq<int>
    requires i < |l|
  {
    l[..i] + l[i + 1..]
  }

  /** The list without `p`; unchanged when `p` is not on it. */
  function Remove(l: seq<int>, p: int): seq<int> {
    if p in l then RemoveAt(l, IndexOf(l, p)) else l
  }

  function Key(keys: seq<int>, p: int): int { if 0 <= p < |keys| then keys[p] else 0 }

  /** Where `insert` links a new key: behind every leading entry whose key is at least as large. */
  function KeyPos(l: seq<int>, keys: seq<int>, key: int): (i: nat)
    ensures i <= |l|
    ensures forall j :: 0 <= j < i ==> Key(keys, l[j]) >= key
    ensures i < |l| ==> Key(keys, l[i]) < key
  {
    if l == [] || Key(keys, l[0]) < key then 0
    else
      var i := KeyPos(l[1..], keys, key);
      assert forall j :: 0 < j < i + 1 ==> l[j] == l[1..][j - 1];
      i + 1
  }

  /** Where `insertd` links a new delay, and the delay that is left at that point. */
  function DeltaPos(l: seq<int>, keys: seq<int>, key: int): (r: (nat, int))
    ensures r.0 <= |l|
    decreases |l|
  {
    if l == [] || Key(keys, l[0]) > key then (0, key)
    else
      var r := DeltaPos(l[1..], keys, W32(key - Key(keys, l[0])));
      (r.0 + 1, r.1)
  }

  // ---- primitive steps -------------------------------------------------------------

  function SetProc(s: KState, p: int, pr: Proc): KState
    requires 0 <= p < NPROC
  {
    s.(procs := s.procs[p := pr])
  }

  function SetState(s: KState, p: int, st: PrState): KState
    requires 0 <= p < NPROC
  {
    SetProc(s, p, s.procs[p].(state := st))
  }

  function SetCont(s: KState, p: int, c: Cont): KState
    requires 0 <= p < NPROC
  {
    s.(conts := s.conts[p := c])
  }

  function SetCount(s: KState, sem: int, n: int): KState
    requires 0 <= sem < NSEM
  {
    s.(sems := s.sems[sem := s.sems[sem].(count := n)])
  }

  function SetSem(s: KState, sem: int, e: Sem): KState
    requires 0 <= sem < NSEM
  {
    s.(sems := s.sems[sem := e])
  }

  function SetList(s: KState, k: int, l: seq<int>): KState
    requires 0 <= k < NLISTS
  {
    s.(lists := s.lists[k := l])
  }

  /** `enqueue`: link at the tail. */
  function Enqueue(s: KState, p: int, k: int): KState
    requires 0 <= k < NLISTS
  {
    SetList(s, k, s.lists[k] + [p])
  }

  /** `getitem`: unlink from list `k`. */
  function Unlink(s: KState, p: int, k: int): KState
    requires 0 <= k < NLISTS
  {
    SetList(s, k, Remove(s.lists[k], p))
  }

  /** `ready` without the reschedule. */
  function MakeReady(s: KState, p: int): KState
    requires 0 <= p < NPROC
  {
    var prio := s.procs[p].prio;
    var l := s.lists[READYQ];
    SetList(SetState(s, p, Ready), READYQ, InsertAt(l, KeyPos(l, s.keys, prio), p)).(keys := s.keys[p := prio])
  }

  /** Dequeue the first process of list `k` and make it ready. */
  function ReleaseFirst(s: KState, k: int): KState
    requires 0 <= k < NLISTS
  {
    if s.lists[k] == [] || !(0 <= s.lists[k][0] < NPROC) then s
    else MakeReady(SetList(s, k, s.lists[k][1..]), s.lists[k][0])
  }

  /** `firstkey(readylist)`; an empty list shows the key of the tail sentinel. */
  function FirstReadyKey(s: KState): int {
    if s.lists[READYQ] == [] then MINKEY else Key(s.keys, s.lists[READYQ][0])
  }

  /** The context switch of `resched`: an empty ready list leaves the invalid id EMPTY. */
  function Dispatch(s: KState): KState {
    var l := s.lists[READYQ];
    if l == [] || !(0 <= l[0] < NPROC) then s.(currpid := EMPTY)
    else SetState(SetList(s, READYQ, l[1..]), l[0], Curr).(currpid := l[0], preempt := QUANTUM)
  }

  function Resched(s: KState): (r: KState)
    requires CurrInRange(s)
    ensures r.sems == s.sems && r.conts == s.conts && r.pools == s.pools && r.ndefers == s.ndefers
    ensures forall k {:trigger r.lists[k]} :: 0 <= k < NLISTS && k != READYQ ==> r.lists[k] == s.lists[k]
  {
    if s.ndefers > 0 then s.(attempt := true)
    else if s.procs[s.currpid].state.Curr? then
      if s.procs[s.currpid].prio > FirstReadyKey(s) then s
      else Dispatch(MakeReady(s, s.currpid))
    else Dispatch(s)
  }

  /** `insertd` on the sleep queue. */
  function InsertD(s: KState, p: int, key: int): KState
    requires 0 <= p < NPROC
  {
    var l := s.lists[SLEEPQ];
    var (i, r) := DeltaPos(l, s.keys, key);
    var keys := s.keys[p := r];
    var keys' := if i < |l| && 0 <= l[i] < NPROC then keys[l[i] := W32(keys[l[i]] - r)] else keys;
    SetList(s, SLEEPQ, InsertAt(l, i, p)).(keys := keys')
  }

  /** `unsleep`: hand the delay of `p` to its successor and unlink `p`. */
  function Unsleep(s: KState, p: int): KState
    requires 0 <= p < NPROC
  {
    var l := s.lists[SLEEPQ];
    var i := IndexOf(l, p);
    var keys' := if i + 1 < |l| && 0 <= l[i + 1] < NPROC
                 then s.keys[l[i + 1] := W32(s.keys[l[i + 1]] + s.keys[p])] else s.keys;
    Unlink(s, p, SLEEPQ).(keys := keys')
  }

  function Pos(n: int): nat { if n > 0 then n else 0 }

  // ---- semaphores ------------------------------------------------------------------

  /** `wait` by the current process, on a semaphore in use. */
  function WaitUsed(s: KState, sem: int): KState
    requires CurrInRange(s) && 0 <= sem < NSEM
  {
    var n := s.sems[sem].count - 1;
    var s1 := SetCount(s, sem, n);
    if n < 0 then
      var pr := s1.procs[s1.currpid].(state := Wait, sem := sem);
      Resched(Enqueue(SetProc(s1, s1.currpid, pr), s1.currpid, sem))
    else s1
  }

  function WaitOp(s: KState, sem: int): KState
    requires CurrInRange(s)
  {
    if BadSem(s, sem) then s else WaitUsed(s, sem)
  }

  /** One increment of the count, releasing the first waiter if there is one. */
  function SignalOne(s: KState, sem: int): KState
    requires 0 <= sem < NSEM
  {
    var n := s.sems[sem].count;
    var s1 := SetCount(s, sem, n + 1);
    if n < 0 then ReleaseFirst(s1, sem) else s1
  }

  function SignalOp(s: KState, sem: int): KState
    requires CurrInRange(s)
  {
    if BadSem(s, sem) then s
    else if s.sems[sem].count < 0 then Resched(SignalOne(s, sem))
    else SignalOne(s, sem)
  }

  function SignalMany(s: KState, sem: int, n: nat): (r: KState)
    requires 0 <= sem < NSEM
    ensures r.currpid == s.currpid && r.ndefers == s.ndefers && r.attempt == s.attempt && r.pools == s.pools
    decreases n
  {
    if n == 0 then s else SignalMany(SignalOne(s, sem), sem, n - 1)
  }

  function SignalnOp(s: KState, sem: int, count: int): KState
    requires CurrInRange(s)
  {
    if BadSem(s, sem) || count < 0 then s
    else Resched(SignalMany(s, sem, count))
  }

  /** Release every process on list `k`, first come first released. */
  function ReleaseAll(s: KState, k: int): (r: KState)
    requires 0 <= k < NLISTS && k != READYQ
    ensures r.currpid == s.currpid && r.ndefers == s.ndefers && r.attempt == s.attempt && r.pools == s.pools
    decreases |s.lists[k]|
  {
    if s.lists[k] == [] || !(0 <= s.lists[k][0] < NPROC) then s
    else ReleaseAll(ReleaseFirst(s, k), k)
  }

  function SemdeleteOp(s: KState, sem: int): KState
    requires CurrInRange(s)
  {
    if BadSem(s, sem) then s
    else
      Resched(SetSem(ReleaseAll(s, sem), sem, Sem(false, Pos(s.sems[sem].count) + 1)))
  }

  function SemresetOp(s: KState, sem: int, count: int): KState
    requires CurrInRange(s)
  {
    if count < 0 || BadSem(s, sem) then s
    else Resched(SetCount(ReleaseAll(s, sem), sem, count))
  }

  /** The slot probed in round `n` of a cyclic search through a table of 100 entries. */
  function Slot(start: nat, n: nat): (i: nat)
    ensures i < 100
  {
    (start + n) % 100
  }

  /** `newsem`: the first free entry at or after `nextsem`, cyclically. */
  function FindSem(sems: seq<Sem>, start: nat, n: nat): (r: Option<nat>)
    requires |sems| == NSEM && n <= NSEM
    ensures r.Some? ==> r.value < NSEM && !sems[r.value].used
    ensures r.None? ==> forall j: nat :: n <= j < NSEM ==> sems[Slot(start, j)].used
    decreases NSEM - n
  {
    if n == NSEM then None
    else if !sems[Slot(start, n)].used then Some(Slot(start, n))
    else FindSem(sems, start, n + 1)
  }

  function SemcreateOp(s: KState, count: int): KState {
    if count < 0 then s
    else match FindSem(s.sems, s.nextsem, 0)
      case None => s
      case Some(sem) => s.(sems := s.sems[sem := Sem(true, count)], nextsem := if sem + 1 >= NSEM then 0 else sem + 1)
  }

  lemma SlotNext(start: nat, n: nat)
    ensures Slot(start, n + 1) == if Slot(start, n) + 1 >= 100 then 0 else Slot(start, n) + 1
  {
  }

  /** The cyclic search probes every slot. */
  lemma SlotsCover(start: nat, i: nat) returns (n: nat)
    requires i < 100
    ensures n < 100 && Slot(start, n) == i
  {
    n := (i + 100 - start % 100) % 100;
  }

  lemma FindSemComplete(sems: seq<Sem>, start: nat)
    requires |sems| == NSEM
    ensures FindSem(sems, start, 0).None? <==> forall i :: 0 <= i < NSEM ==> sems[i].used
  {
    forall i | 0 <= i < NSEM && FindSem(sems, start, 0).None?
      ensures sems[i].used
    {
      var n := SlotsCover(start, i);
    }
  }

  // ---- processes -------------------------------------------------------------------

  function FindPid(procs: seq<Proc>, start: nat, n: nat): (r: Option<nat>)
    requires |procs| == NPROC && n <= NPROC
    ensures r.Some? ==> r.value < NPROC && procs[r.value].state.Free?
    ensures r.None? ==> forall j: nat :: n <= j < NPROC ==> !procs[Slot(start, j)].state.Free?
    decreases NPROC - n
  {
    if n == NPROC then None
    else if procs[Slot(start, n)].state.Free? then Some(Slot(start, n))
    else FindPid(procs, start, n + 1)
  }

  lemma FindPidComplete(procs: seq<Proc>, start: nat)
    requires |procs| == NPROC
    ensures FindPid(procs, start, 0).None? <==> forall i :: 0 <= i < NPROC ==> !procs[i].state.Free?
  {
    forall i | 0 <= i < NPROC && FindPid(procs, start, 0).None?
      ensures !procs[i].state.Free?
    {
      var n := SlotsCover(start, i);
    }
  }

  /** Where `nextpid` stands after a scan that found no free entry. */
  function AfterFullScan(n: nat): nat { (n + NPROC - 1) % NPROC + 1 }

  /** `create`; `stack` says whether `getstk` found memory for the stack. */
  function CreateOp(s: KState, stack: bool, prio: int): KState
    requires CurrInRange(s)
  {
    if !stack then s
    else match FindPid(s.procs, s.nextpid, 0)
      case None => s.(nextpid := AfterFullScan(s.nextpid))
      case Some(pid) =>
        var s1 := s.(nextpid := pid + 1);
        if prio < 1 then s1
        else
          var pr := Proc(Susp, prio, -1, s.currpid, false, s.procs[pid].msg);
          SetCont(SetProc(s1, pid, pr), pid, NoCont)
  }

  function ResumeOp(s: KState, pid: int): KState
    requires CurrInRange(s)
  {
    if BadPid(s, pid) || !s.procs[pid].state.Susp? then s
    else Resched(MakeReady(s, pid))
  }

  function SuspendOp(s: KState, pid: int): KState
    requires CurrInRange(s)
  {
    if BadPid(s, pid) || pid == NULLPROC then s
    else if s.procs[pid].state.Ready? then SetState(Unlink(s, pid, READYQ), pid, Susp)
    else if s.procs[pid].state.Curr? then Resched(SetState(s, pid, Susp))
    else s
  }

  // ---- timers and messages ---------------------------------------------------------

  function SleepmsOp(s: KState, delay: int): KState
    requires CurrInRange(s)
  {
    if delay == 0 then Resched(s)
    else Resched(SetState(InsertD(s, s.currpid, W32(delay)), s.currpid, Sleep))
  }

  function SendOp(s: KState, pid: int, msg: int): KState
    requires CurrInRange(s)
  {
    if BadPid(s, pid) || s.procs[pid].hasmsg then s
    else
      var s1 := SetProc(s, pid, s.procs[pid].(msg := msg, hasmsg := true));
      match s.procs[pid].state
      case Recv => Resched(MakeReady(s1, pid))
      case RecTim => Resched(MakeReady(Unsleep(s1, pid), pid))
      case _ => s1
  }

  /** `receive` up to the point where the process runs with its message (see `Finish`). */
  function ReceiveOp(s: KState): KState
    requires CurrInRange(s)
  {
    var s1 := SetCont(s, s.currpid, InReceive);
    if s.procs[s.currpid].hasmsg then s1 else Resched(SetState(s1, s.currpid, Recv))
  }

  function RecvtimeOp(s: KState, maxwait: int): KState
    requires CurrInRange(s)
  {
    if maxwait < 0 then s
    else
      var s1 := SetCont(s, s.currpid, InRecvtime);
      if s.procs[s.currpid].hasmsg then s1
      else Resched(SetState(InsertD(s1, s.currpid, maxwait), s.currpid, RecTim))
  }

  /** `recvclr`, and what `receive` and `recvtime` do once they run again. */
  function ClearMsg(s: KState): KState
    requires CurrInRange(s)
  {
    SetProc(s, s.currpid, s.procs[s.currpid].(hasmsg := false))
  }

  // ---- kill ------------------------------------------------------------------------

  /** `kill` up to and including the message to the parent, which may switch away. */
  function KillOp(s: KState, pid: int): KState
    requires CurrInRange(s)
  {
    if BadPid(s, pid) || pid == NULLPROC then s
    else SendOp(SetCont(s, s.currpid, InKill(pid)), s.procs[pid].parent, pid)
  }

  predicate Granted(pr: Proc, c: Cont, pool: int) {
    c == InGetbuf(pool) && !pr.state.Wait? && !pr.state.Free?
  }

  /** Mark the table entry free; a buffer granted but not yet taken stays behind. */
  function SetFree(s: KState, pid: int): (r: KState)
    requires 0 <= pid < NPROC
    ensures r == s.(procs := r.procs, conts := r.conts, pools := r.pools)
  {
    var s1 := match s.conts[pid]
      case InGetbuf(i) =>
        if 0 <= i < |s.pools| && Granted(s.procs[pid], s.conts[pid], i)
        then s.(pools := s.pools[i := s.pools[i].(lost := s.pools[i].lost + 1)]) else s
      case _ => s;
    SetCont(SetState(s1, pid, Free), pid, NoCont)
  }

  /** The rest of `kill`: unlink the victim from the queue that holds it. */
  function KillRest(s: KState, pid: int): KState
    requires CurrInRange(s) && 0 <= pid < NPROC
  {
    var pr := s.procs[pid];
    match pr.state
    case Curr => Resched(SetFree(s, pid))
    case Sleep => SetFree(Unsleep(s, pid), pid)
    case RecTim => SetFree(Unsleep(s, pid), pid)
    case Wait =>
      if 0 <= pr.sem < NSEM then SetFree(Unlink(SetCount(s, pr.sem, s.sems[pr.sem].count + 1), pid, pr.sem), pid)
      else s
    case Ready => SetFree(Unlink(s, pid, READYQ), pid)
    case _ => SetFree(s, pid)
  }

  // ---- clock -----------------------------------------------------------------------

  /** The loop of `wakeup`: release sleepers while the first key is not positive. */
  function WakeLoop(s: KState): (r: KState)
    ensures r.currpid == s.currpid && r.ndefers == s.ndefers && r.attempt == s.attempt && r.pools == s.pools
    decreases |s.lists[SLEEPQ]|
  {
    var l := s.lists[SLEEPQ];
    if l == [] || !(0 <= l[0] < NPROC) || s.keys[l[0]] > 0 then s
    else WakeLoop(ReleaseFirst(s, SLEEPQ))
  }

  /** `--firstkey(sleepq)`. */
  function DecFirst(s: KState): KState {
    var l := s.lists[SLEEPQ];
    if l == [] || !(0 <= l[0] < NPROC) then s
    else s.(keys := s.keys[l[0] := W32(s.keys[l[0]] - 1)])
  }

  /** `clkhandler` up to the preemption check, run in the interrupted process. */
  function TickOp(s: KState): KState
    requires CurrInRange(s)
  {
    var s1 := DecFirst(SetCont(s, s.currpid, InTick));
    var l := s.lists[SLEEPQ];
    if l != [] && Key(s1.keys, l[0]) <= 0 then Resched(WakeLoop(s1)) else s1
  }

  /** The preemption check of `clkhandler`; `preempt` is an unsigned word. */
  function TickRest(s: KState): KState
    requires CurrInRange(s)
  {
    var n := (s.preempt - 1) % 0x1_0000_0000;
    if n <= 0 then Resched(s.(preempt := QUANTUM)) else s.(preempt := n)
  }

  // ---- deferral --------------------------------------------------------------------

  function DeferStart(s: KState): KState {
    s.(ndefers := s.ndefers + 1, attempt := if s.ndefers == 0 then false else s.attempt)
  }

  function DeferStop(s: KState): KState
    requires CurrInRange(s)
  {
    if s.ndefers <= 0 then s
    else
      var s1 := s.(ndefers := s.ndefers - 1);
      if s1.ndefers == 0 && s1.attempt then Resched(s1) else s1
  }

  // ---- buffer pools ----------------------------------------------------------------

  const BP_MINB := 8
  const BP_MAXB := 8192
  const BP_MAXN := 2048

  function BufSize(bufsiz: int): int { (bufsiz + 3) / 4 * 4 + 4 }

  /** The chain of a new pool whose memory starts at `base`. */
  function PoolBufs(base: int, bufsiz: int, numbufs: nat): seq<int> {
    seq(numbufs, i => base + i * BufSize(bufsiz))
  }

  /** `mkbufpool`; `mem` is what `getmem` answered. */
  function MkbufpoolOp(s: KState, bufsiz: int, numbufs: int, mem: Option<int>): KState {
    if bufsiz < BP_MINB || bufsiz > BP_MAXB || numbufs < 1 || numbufs > BP_MAXN || |s.pools| >= NBPOOLS || mem.None?
    then s
    else match FindSem(s.sems, s.nextsem, 0)
      case None => s
      case Some(sem) =>
        SemcreateOp(s, numbufs).(pools := s.pools + [Pool(sem, PoolBufs(mem.value, bufsiz, numbufs), {}, 0)])
  }

  function GetbufOp(s: KState, pool: int): KState
    requires CurrInRange(s)
  {
    if !(0 <= pool < |s.pools|) then s
    else WaitOp(SetCont(s, s.currpid, InGetbuf(pool)), s.pools[pool].sem)
  }

  /** `nbgetbuf`: refuses instead of blocking. */
  function NbgetbufOp(s: KState, pool: int): KState
    requires CurrInRange(s)
  {
    if !(0 <= pool < |s.pools|) || BadSem(s, s.pools[pool].sem) || s.sems[s.pools[pool].sem].count <= 0 then s
    else GetbufOp(s, pool)
  }

  /** The first free buffer is handed out. */
  function Popped(b: Pool): Pool
    requires b.free != []
  {
    b.(free := b.free[1..], lent := b.lent + {b.free[0]})
  }

  /** A buffer comes back to the front of the chain. */
  function Pushed(b: Pool, buf: int): Pool { b.(free := [buf] + b.free, lent := b.lent - {buf}) }

  /** The pop of `getbuf`, once its wait has been passed. */
  function TakeBuf(s: KState, pool: int): KState {
    if !(0 <= pool < |s.pools|) || s.pools[pool].free == [] then s
    else
      var b := s.pools[pool];
      s.(pools := s.pools[pool := Popped(b)])
  }

  function FreebufOp(s: KState, pool: int, buf: int): KState
    requires CurrInRange(s)
  {
    if !(0 <= pool < |s.pools|) then s
    else
      var b := s.pools[pool];
      SignalOp(s.(pools := s.pools[pool := Pushed(b, buf)]), b.sem)
  }

  // ---- steps -----------------------------------------------------------------------

  datatype Op =
    | Yield
    | WaitFor(sem: int)
    | Signal(sem: int)
    | Signaln(sem: int, count: int)
    | Semcreate(count: int)
    | Semdelete(sem: int)
    | Semreset(sem: int, count: int)
    | Create(stack: bool, prio: int)
    | Resume(pid: int)
    | Suspend(pid: int)
    | Sleepms(delay: int)
    | Send(pid: int, msg: int)
    | Receive
    | Recvclr
    | Recvtime(maxwait: int)
    | Kill(pid: int)
    | Start
    | Stop
    | Mkbufpool(bufsiz: int, numbufs: int, mem: Option<int>)
    | Getbuf(pool: int)
    | Nbgetbuf(pool: int)
    | Freebuf(pool: int, buf: int)
    | Tick
    | Finish

  /** Run the pending continuation of the current process. */
  function FinishOp(s: KState): KState
    requires CurrInRange(s)
  {
    var c := s.conts[s.currpid];
    var s1 := SetCont(s, s.currpid, NoCont);
    match c
    case NoCont => s
    case InReceive => ClearMsg(s1)
    case InRecvtime => ClearMsg(s1)
    case InGetbuf(i) => TakeBuf(s1, i)
    case InKill(p) => if 0 <= p < NPROC then KillRest(s1, p) else s1
    case InTick => TickRest(s1)
  }

  function Step(s: KState, op: Op): KState
    requires CurrInRange(s)
  {
    match op
    case Yield => Resched(s)
    case WaitFor(sem) => WaitOp(s, sem)
    case Signal(sem) => SignalOp(s, sem)
    case Signaln(sem, count) => SignalnOp(s, sem, count)
    case Semcreate(count) => SemcreateOp(s, count)
    case Semdelete(sem) => SemdeleteOp(s, sem)
    case Semreset(sem, count) => SemresetOp(s, sem, count)
    case Create(stack, prio) => CreateOp(s, stack, prio)
    case Resume(pid) => ResumeOp(s, pid)
    case Suspend(pid) => SuspendOp(s, pid)
    case Sleepms(delay) => SleepmsOp(s, delay)
    case Send(pid, msg) => SendOp(s, pid, msg)
    case Receive => ReceiveOp(s)
    case Recvclr => ClearMsg(s)
    case Recvtime(maxwait) => RecvtimeOp(s, maxwait)
    case Kill(pid) => KillOp(s, pid)
    case Start => DeferStart(s)
    case Stop => DeferStop(s)
    case Mkbufpool(bufsiz, numbufs, mem) => MkbufpoolOp(s, bufsiz, numbufs, mem)
    case Getbuf(pool) => GetbufOp(s, pool)
    case Nbgetbuf(pool) => NbgetbufOp(s, pool)
    case Freebuf(pool, buf) => FreebufOp(s, pool, buf)
    case Tick => TickOp(s)
    case Finish => FinishOp(s)
  }
}
