/**
 Concrete runs from boot that exhibit what the kernel does not promise: a zero timeout that
 costs another sleeper a tick, and a kill that leaves a granted buffer without an owner.  As
 in nulluser, the null process only creates and resumes process 1, which runs `main` and makes
 or starts whatever makes the other calls.
 */
module KernelWitness {
  import opened Wrappers
  import opened KernelState
  import opened KernelSteps
  import opened KernelRuns
  import opened KernelTimer
  import opened KernelClock
  import opened KernelWakeup

  const MAIN := 1
  const INITPRIO := 20

  lemma {:induction false} LegalPush(s: KState, ops: seq<Op>, op: Op)
    requires Legal(s, ops) && Enabled(Exec(s, ops), op)
    ensures Legal(s, ops + [op]) && Exec(s, ops + [op]) == Step(Exec(s, ops), op)
    decreases |ops|
  {
    hide Step, MayBlock, Private;
    if ops == [] {
      assert [] + [op] == [op] && [op][1..] == [];
      assert Exec(s, [op]) == Exec(Step(s, op), []);
    } else {
      assert (ops + [op])[1..] == ops[1..] + [op];
      LegalPush(Step(s, ops[0]), ops[1..], op);
    }
  }

  // ---- switching between the null process, main and process 2 ----------------------

  /** `p` runs outside deferral, with nothing pending, and `l` is the ready list. */
  predicate OnCpu(s: KState, p: int, l: seq<int>) {
    && 0 <= p < NPROC && s.currpid == p && s.lists[READYQ] == l && s.ndefers == 0
    && s.procs[p].state.Curr? && s.conts[p].NoCont?
  }

  lemma CreateIs(s: KState)
    requires CurrInRange(s) && s.nextpid < NPROC && s.procs[s.nextpid].state.Free?
    ensures var p := s.nextpid; var pr := Proc(Susp, INITPRIO, -1, s.currpid, false, s.procs[p].msg);
            Step(s, Create(true, INITPRIO)) == SetCont(SetProc(s.(nextpid := p + 1), p, pr), p, NoCont)
  {
    assert Slot(s.nextpid, 0) == s.nextpid;
    assert FindPid(s.procs, s.nextpid, 0) == Some(s.nextpid);
  }

  /** Everything but the scheduling of `p` and `q` is the same. */
  predicate Switched(s: KState, t: KState, p: int, q: int)
    requires 0 <= p < NPROC && 0 <= q < NPROC
  {
    && t.ndefers == 0 && t.conts == s.conts && t.sems == s.sems && t.pools == s.pools && t.nextpid == s.nextpid
    && t.nextsem == s.nextsem && t.lists == s.lists[READYQ := t.lists[READYQ]]
    && t.procs == s.procs[p := s.procs[p].(state := Curr)][q := s.procs[q].(state := Ready)]
    && t.keys == s.keys[p := s.procs[p].prio][q := s.procs[q].prio]
  }

  /** A process that outranks the ready list goes to its front. */
  lemma FrontIs(s: KState, p: int)
    requires 0 <= p < NPROC
    requires var l := s.lists[READYQ]; l == [] || Key(s.keys, l[0]) < s.procs[p].prio
    ensures var t := MakeReady(s, p);
            && t.lists == s.lists[READYQ := [p] + s.lists[READYQ]] && t.keys == s.keys[p := s.procs[p].prio]
            && t == s.(lists := t.lists, keys := t.keys, procs := s.procs[p := s.procs[p].(state := Ready)])
  {
    var l := s.lists[READYQ];
    assert KeyPos(l, s.keys, s.procs[p].prio) == 0;
    assert InsertAt(l, 0, p) == [p] + l;
  }

  /** One that the first ready process outranks or equals, and the next does not, goes second. */
  lemma SecondIs(s: KState, p: int, q: int, l: seq<int>)
    requires 0 <= q < NPROC && s.lists[READYQ] == [p] + l && Key(s.keys, p) >= s.procs[q].prio
    requires l == [] || Key(s.keys, l[0]) < s.procs[q].prio
    ensures var t := MakeReady(s, q);
            && t.lists == s.lists[READYQ := [p] + ([q] + l)] && t.keys == s.keys[q := s.procs[q].prio]
            && t == s.(lists := t.lists, keys := t.keys, procs := s.procs[q := s.procs[q].(state := Ready)])
  {
    assert ([p] + l)[1..] == l;
    assert KeyPos(l, s.keys, s.procs[q].prio) == 0;
    assert KeyPos([p] + l, s.keys, s.procs[q].prio) == 1;
    assert InsertAt([p] + l, 1, q) == [p] + ([q] + l);
  }

  /** The running process `q` resumes `p` of at least its priority, which takes the CPU. */
  lemma ResumeIs(s: KState, p: int, q: int)
    requires 0 <= p < NPROC && 0 <= q < NPROC && p != q && s.currpid == q && s.ndefers == 0 && s.procs[q].state.Curr?
    requires s.procs[p].state.Susp? && s.procs[p].prio >= s.procs[q].prio && s.procs[p].prio > 0
    requires var l := s.lists[READYQ]; l == [] || (l == [NULLPROC] && p != 0 && q != 0 && s.keys[0] == 0)
    requires s.lists[READYQ] == [NULLPROC] ==> s.procs[q].prio > 0
    ensures var t := Step(s, Resume(p));
            t.currpid == p && t.lists[READYQ] == [q] + s.lists[READYQ] && Switched(s, t, p, q)
  {
    hide MakeReady, KeyPos, InsertAt;
    var l, m := s.lists[READYQ], MakeReady(s, p);
    FrontIs(s, p);
    SecondIs(m, p, q, l);
    var n := MakeReady(m, q);
    assert Step(s, Resume(p)) == Dispatch(n);
    assert n.lists[READYQ][0] == p && n.lists[READYQ][1..] == [q] + l;
  }

  /** The running process is no longer current: the first ready one takes the CPU. */
  lemma NextIs(m: KState, p: int, l: seq<int>)
    requires 0 <= m.currpid < NPROC && !m.procs[m.currpid].state.Curr? && m.ndefers == 0
    requires 0 <= p < NPROC && m.lists[READYQ] == [p] + l
    ensures var t := Resched(m);
            && t.currpid == p && t.lists == m.lists[READYQ := l] && t.ndefers == 0
            && t.procs == m.procs[p := m.procs[p].(state := Curr)] && t.keys == m.keys && t.conts == m.conts
            && t.sems == m.sems && t.pools == m.pools && t.nextpid == m.nextpid && t.nextsem == m.nextsem
  {
    assert ([p] + l)[1..] == l;
  }

  // ---- main runs -------------------------------------------------------------------

  function MainRun(): seq<Op> { [Create(true, INITPRIO)] + [Resume(MAIN)] }

  /** What both runs need once `main` has the CPU. */
  predicate MainRuns(s: KState) {
    && OnCpu(s, MAIN, [NULLPROC]) && s.procs[NULLPROC].state.Ready? && s.conts[NULLPROC].NoCont?
    && s.procs[MAIN].prio == INITPRIO && s.keys[NULLPROC] == 0 && !s.procs[MAIN].hasmsg
  }

  /** Nothing else has happened yet. */
  predicate Untouched(s: KState) {
    s.nextpid == 2 && s.procs[2].state.Free? && s.lists[SLEEPQ] == [] && s.lists[0] == [] && s.pools == []
      && s.nextsem == 0 && !s.sems[0].used
  }

  lemma MainCreated(s: KState)
    requires s == Boot()
    ensures Enabled(s, Create(true, INITPRIO))
    ensures var t := Step(s, Create(true, INITPRIO));
            && OnCpu(t, NULLPROC, []) && t.procs[MAIN].state.Susp? && t.procs[MAIN].prio == INITPRIO
            && t.procs[NULLPROC].prio == 0 && !t.procs[MAIN].hasmsg && t.conts[MAIN].NoCont? && Untouched(t)
  {
    CreateIs(s);
    hide Step;
  }

  lemma MainStarted(s: KState)
    requires s == Boot()
    ensures Legal(s, MainRun()) && MainRuns(Exec(s, MainRun())) && Untouched(Exec(s, MainRun()))
  {
    MainCreated(s);
    var t := Step(s, Create(true, INITPRIO));
    hide Step, Boot;
    assert [] + [Create(true, INITPRIO)] == [Create(true, INITPRIO)] && [NULLPROC] + [] == [NULLPROC];
    ResumeIs(t, MAIN, NULLPROC);
    LegalPush(s, [], Create(true, INITPRIO));
    LegalPush(s, [Create(true, INITPRIO)], Resume(MAIN));
  }

  /** `main` starts process 2, which takes the CPU: they have the same priority. */
  lemma SecondStarts(s: KState)
    requires MainRuns(s) && s.nextpid == 2 && s.procs[2].state.Free?
    ensures Enabled(s, Create(true, INITPRIO))
    ensures var t := Step(s, Create(true, INITPRIO));
            && Enabled(t, Resume(2))
            && var u := Step(t, Resume(2));
               && OnCpu(u, 2, [MAIN, NULLPROC]) && u.sems == s.sems && u.pools == s.pools
               && u.lists[SLEEPQ] == s.lists[SLEEPQ] && u.lists[0] == s.lists[0] && u.keys[NULLPROC] == 0
               && u.procs[NULLPROC] == s.procs[NULLPROC] && u.conts[NULLPROC].NoCont? && u.conts[MAIN].NoCont?
               && u.procs[MAIN] == s.procs[MAIN].(state := Ready)
               && u.procs[2].parent == MAIN && u.procs[2].prio == INITPRIO && !u.procs[2].hasmsg
  {
    CreateIs(s);
    var t := Step(s, Create(true, INITPRIO));
    assert Enabled(s, Create(true, INITPRIO)) && Enabled(t, Resume(2));
    hide Step;
    ResumeIs(t, 2, MAIN);
    assert [MAIN] + [NULLPROC] == [MAIN, NULLPROC];
  }

  function TwoRun(ops: seq<Op>): seq<Op> { ops + [Create(true, INITPRIO)] + [Resume(2)] }

  // ---- a zero timeout delays another sleeper ---------------------------------------

  /** `main` starts process 2, which asks for a message with a timeout of zero; then `main`
      sleeps for one tick. */
  function ZeroTimeoutRun(): seq<Op> {
    [Create(true, INITPRIO), Resume(MAIN), Create(true, INITPRIO), Resume(2), Recvtime(0), Sleepms(1)]
  }

  /** The running process goes to the end of the sleep queue, where it adds `d` ticks. */
  lemma DelayIs(t: KState, p: int, c: Cont, d: int, st: PrState, next: int, l: seq<int>)
    requires OnCpu(t, p, [next] + l) && 0 <= next < NPROC && next != p && (st.Sleep? || st.RecTim?)
    requires var z := t.lists[SLEEPQ]; z == [] || (|z| == 1 && Key(t.keys, z[0]) == 0)
    requires 0 <= d <= 1
    ensures var u := Resched(SetState(InsertD(SetCont(t, p, c), p, d), p, st));
            && u.currpid == next && u.ndefers == 0 && u.lists[READYQ] == l
            && u.lists[SLEEPQ] == t.lists[SLEEPQ] + [p] && u.keys == t.keys[p := d] && u.conts == t.conts[p := c]
            && u.procs == t.procs[p := t.procs[p].(state := st)][next := t.procs[next].(state := Curr)]
  {
    var z, t1 := t.lists[SLEEPQ], SetCont(t, p, c);
    EndOfQueue(z, t1.keys, d);
    assert InsertAt(z, |z|, p) == z + [p];
    hide DeltaPos, InsertAt;
    var m := SetState(InsertD(t1, p, d), p, st);
    assert m.lists[SLEEPQ] == z + [p] && m.lists[READYQ] == [next] + l && m.keys == t.keys[p := d];
    hide InsertD;
    NextIs(m, next, l);
    hide Resched;
  }

  lemma EndOfQueue(z: seq<int>, keys: seq<int>, d: int)
    requires 0 <= d <= 1 && (z == [] || (|z| == 1 && Key(keys, z[0]) == 0))
    ensures DeltaPos(z, keys, d) == (|z|, d)
  {
    if z != [] {
      W32Id(d);
      assert z[1..] == [];
      assert DeltaPos(z[1..], keys, d) == (0, d);
    }
  }

  /** Process 2 asks for a message without waiting; `main` runs again. */
  lemma SecondTimesOut(s: KState)
    requires OnCpu(s, 2, [MAIN, NULLPROC]) && s.lists[SLEEPQ] == [] && !s.procs[2].hasmsg
    requires s.procs[MAIN].state.Ready? && s.conts[MAIN].NoCont? && s.conts[NULLPROC].NoCont?
    ensures Enabled(s, Recvtime(0))
    ensures var t := Step(s, Recvtime(0));
            && OnCpu(t, MAIN, [NULLPROC]) && t.lists[SLEEPQ] == [2] && t.keys[2] == 0 && t.conts[NULLPROC].NoCont?
  {
    assert [MAIN, NULLPROC] == [MAIN] + [NULLPROC] && [] + [2] == [2];
    hide InsertD, Resched;
    DelayIs(s, 2, InRecvtime, 0, RecTim, MAIN, [NULLPROC]);
  }

  /** `main` sleeps for one tick. */
  lemma MainSleeps(s: KState)
    requires OnCpu(s, MAIN, [NULLPROC]) && s.lists[SLEEPQ] == [2] && s.keys[2] == 0 && s.conts[NULLPROC].NoCont?
    ensures Enabled(s, Sleepms(1))
    ensures var t := Step(s, Sleepms(1));
            && t.currpid == NULLPROC && t.conts[NULLPROC].NoCont? && t.ndefers == 0
            && t.lists[SLEEPQ] == [2, MAIN] && t.keys[2] == 0 && t.keys[MAIN] == 1
  {
    assert [NULLPROC] == [NULLPROC] + [] && [2] + [MAIN] == [2, MAIN] && SetCont(s, MAIN, NoCont) == s;
    W32Id(1);
    hide InsertD, Resched, W32;
    DelayIs(s, MAIN, NoCont, 1, Sleep, NULLPROC, []);
  }

  lemma ZeroTwo(s: KState)
    requires s == Boot()
    ensures Legal(s, TwoRun(MainRun()))
    ensures var t := Exec(s, TwoRun(MainRun()));
            && OnCpu(t, 2, [MAIN, NULLPROC]) && t.lists[SLEEPQ] == [] && !t.procs[2].hasmsg
            && t.procs[MAIN].state.Ready? && t.conts[MAIN].NoCont? && t.conts[NULLPROC].NoCont?
  {
    hide Step, Enabled, Boot, MainRun, MainRuns;
    MainStarted(s);
    var t := Exec(s, MainRun());
    SecondStarts(t);
    LegalPush(s, MainRun(), Create(true, INITPRIO));
    LegalPush(s, MainRun() + [Create(true, INITPRIO)], Resume(2));
  }

  lemma ZeroParts()
    ensures ZeroTimeoutRun() == TwoRun(MainRun()) + [Recvtime(0)] + [Sleepms(1)]
  {
  }

  lemma ZeroTimedOut(s: KState)
    requires s == Boot()
    ensures Legal(s, ZeroTimeoutRun())
    ensures var t := Exec(s, ZeroTimeoutRun());
            && t.currpid == NULLPROC && t.conts[NULLPROC].NoCont? && t.ndefers == 0
            && t.lists[SLEEPQ] == [2, MAIN] && t.keys[2] == 0 && t.keys[MAIN] == 1
  {
    ZeroParts();
    hide Step, Enabled, Boot, MainRun, TwoRun, ZeroTimeoutRun, OnCpu, Legal, Exec;
    var o := TwoRun(MainRun());
    ZeroTwo(s);
    SecondTimesOut(Exec(s, o));
    LegalPush(s, o, Recvtime(0));
    MainSleeps(Exec(s, o + [Recvtime(0)]));
    LegalPush(s, o + [Recvtime(0)], Sleepms(1));
  }

  lemma ZeroTimeoutFits()
    ensures DelaysFit(ZeroTimeoutRun())
  {
  }

  lemma NullTicks(s: KState)
    requires s.currpid == NULLPROC && s.conts[NULLPROC].NoCont?
    ensures Enabled(s, Tick)
  {
  }

  lemma ZeroTimeoutInv(s: KState)
    requires s == Boot() && Legal(s, ZeroTimeoutRun())
    ensures Inv(Exec(s, ZeroTimeoutRun())) && TimerOK(Exec(s, ZeroTimeoutRun()))
  {
    BootInv();
    BootTimer();
    ZeroTimeoutFits();
    hide Boot, ZeroTimeoutRun, Inv, TimerOK, Legal, Exec, DelaysFit, HeadPositive;
    RunInv(s, ZeroTimeoutRun());
    TimerRun(s, ZeroTimeoutRun());
  }

  lemma ZeroTimeoutTick(s: KState)
    requires Inv(s) && TimerOK(s) && s.currpid == NULLPROC && s.conts[NULLPROC].NoCont?
    requires s.lists[SLEEPQ] == [2, MAIN] && s.keys[2] == 0 && s.keys[MAIN] == 1
    ensures Enabled(s, Tick) && Asleep(s, MAIN) && Due(s, MAIN) == 1
    ensures Asleep(Step(s, Tick), MAIN) && Due(Step(s, Tick), MAIN) == 1
  {
    hide Inv, TimerOK, Enabled, Due, Asleep, TickOp;
    NullTicks(s);
    ZeroTimeoutDelaysOthers(s, 2, MAIN);
  }

  /** A reachable state in which `main` is due in one tick, and is still due in one tick after
      the next, because that tick is spent on process 2. */
  lemma ZeroTimeoutWitness()
    ensures Legal(Boot(), ZeroTimeoutRun())
    ensures var s := Exec(Boot(), ZeroTimeoutRun());
            && Enabled(s, Tick) && Asleep(s, MAIN) && Due(s, MAIN) == 1
            && Asleep(Step(s, Tick), MAIN) && Due(Step(s, Tick), MAIN) == 1
  {
    var boot: KState := Boot();
    hide Boot, ZeroTimeoutRun, Inv, TimerOK, Legal, Exec, Enabled, Due, Asleep, Step;
    ZeroTimedOut(boot);
    ZeroTimeoutInv(boot);
    ZeroTimeoutTick(Exec(boot, ZeroTimeoutRun()));
  }

  // ---- a kill loses a buffer -------------------------------------------------------

  /** `main` makes a pool of one buffer, takes it and starts process 2, which waits for one.
      Under deferral `main` releases the buffer, which grants the wait, and kills process 2
      before it runs.  Three processes exist then, so `prcount` falls to 2 and `kill` does not
      end the system through `xdone`. */
  function LostRun(): seq<Op> {
    [Create(true, INITPRIO), Resume(MAIN), Mkbufpool(8, 1, Some(4096)), Getbuf(0), Finish,
     Create(true, INITPRIO), Resume(2), Getbuf(0), Start, Freebuf(0, 4096), Kill(2), Finish]
  }

  /** One pool on semaphore 0. */
  predicate OnePool(s: KState, count: int, b: Pool, waiting: seq<int>) {
    s.sems[0] == Sem(true, count) && s.pools == [b] && b.sem == 0 && s.lists[0] == waiting
  }

  predicate SecondFree(s: KState) { s.nextpid == 2 && s.procs[2].state.Free? }

  lemma LostPool(s: KState)
    requires MainRuns(s) && Untouched(s)
    ensures Enabled(s, Mkbufpool(8, 1, Some(4096)))
    ensures var t := Step(s, Mkbufpool(8, 1, Some(4096)));
            MainRuns(t) && SecondFree(t) && OnePool(t, 1, Pool(0, [4096], {}, 0), [])
  {
    assert Slot(0, 0) == 0;
    assert FindSem(s.sems, 0, 0) == Some(0);
    assert PoolBufs(4096, 8, 1) == [4096];
    hide FindSem, PoolBufs;
  }

  lemma LostTake(s: KState)
    requires MainRuns(s) && SecondFree(s) && OnePool(s, 1, Pool(0, [4096], {}, 0), [])
    ensures Enabled(s, Getbuf(0))
    ensures var t := Step(s, Getbuf(0));
            && Enabled(t, Finish)
            && var u := Step(t, Finish); MainRuns(u) && SecondFree(u) && OnePool(u, 0, Pool(0, [], {4096}, 0), [])
  {
    var t := Step(s, Getbuf(0));
    assert t == SetCount(SetCont(s, MAIN, InGetbuf(0)), 0, 0);
    assert [4096][1..] == [] && {} + {4096} == {4096};
    var u := Step(t, Finish);
    assert u.pools[0] == Pool(0, [], {4096}, 0);
    assert u.pools == [Pool(0, [], {4096}, 0)];
  }

  /** Process 2 waits for a buffer. */
  predicate Waiting(s: KState) {
    && OnCpu(s, MAIN, [NULLPROC]) && s.keys[NULLPROC] == 0 && !s.procs[MAIN].hasmsg
    && OnePool(s, -1, Pool(0, [], {4096}, 0), [2])
    && s.procs[2].state.Wait? && s.procs[2].parent == MAIN && s.procs[2].prio > 0 && s.conts[2] == InGetbuf(0)
  }

  /** Process 2 asks for a buffer and blocks; `main` runs again. */
  lemma SecondWaits(s: KState)
    requires OnCpu(s, 2, [MAIN, NULLPROC]) && OnePool(s, 0, Pool(0, [], {4096}, 0), [])
    requires s.keys[NULLPROC] == 0 && s.conts[MAIN].NoCont? && !s.procs[MAIN].hasmsg
    requires s.procs[2].parent == MAIN && s.procs[2].prio > 0
    ensures Enabled(s, Getbuf(0)) && Waiting(Step(s, Getbuf(0)))
  {
    hide Resched;
    var s1 := SetCount(SetCont(s, 2, InGetbuf(0)), 0, -1);
    var m := Enqueue(SetProc(s1, 2, s1.procs[2].(state := Wait, sem := 0)), 2, 0);
    assert [] + [2] == [2] && [MAIN, NULLPROC] == [MAIN] + [NULLPROC];
    NextIs(m, MAIN, [NULLPROC]);
    assert Step(s, Getbuf(0)) == Resched(m);
  }

  /** The wait is granted, but process 2 has not run. */
  predicate GrantedTwo(s: KState) {
    && s.currpid == MAIN && s.ndefers == 1 && s.conts[MAIN].NoCont? && !s.procs[MAIN].hasmsg
    && s.procs[MAIN].state.Curr? && s.pools == [Pool(0, [4096], {}, 0)]
    && s.procs[2].state.Ready? && s.procs[2].parent == MAIN && s.conts[2] == InGetbuf(0)
  }

  lemma GrantIs(t: KState)
    requires t.currpid == MAIN && t.ndefers == 1 && t.lists[READYQ] == [NULLPROC] && t.keys[NULLPROC] == 0
    requires t.lists[0] == [2] && t.procs[2].prio > 0
    requires t.sems[0] == Sem(true, -1) && t.pools == [Pool(0, [], {4096}, 0)]
    ensures var u := FreebufOp(t, 0, 4096);
            && u.currpid == MAIN && u.ndefers == 1 && u.conts == t.conts
            && u.procs == t.procs[2 := t.procs[2].(state := Ready)] && u.pools == [Pool(0, [4096], {}, 0)]
  {
    var t1 := t.(pools := [Pool(0, [4096], {}, 0)]);
    assert [4096] + [] == [4096] && {4096} - {4096} == {};
    assert t.pools[0 := Pushed(t.pools[0], 4096)] == [Pool(0, [4096], {}, 0)];
    var t2 := SetList(SetCount(t1, 0, 0), 0, []);
    assert [2][1..] == [];
    hide MakeReady;
    FrontIs(t2, 2);
    assert SignalOne(t1, 0) == MakeReady(t2, 2);
    assert FreebufOp(t, 0, 4096) == MakeReady(t2, 2).(attempt := true);
  }

  lemma LostGrant(s: KState)
    requires Waiting(s)
    ensures Enabled(s, Start)
    ensures var t := Step(s, Start); Enabled(t, Freebuf(0, 4096)) && GrantedTwo(Step(t, Freebuf(0, 4096)))
  {
    hide FreebufOp;
    GrantIs(Step(s, Start));
  }

  lemma KillIs(s: KState)
    requires s.currpid == MAIN && s.procs[MAIN].state.Curr? && !s.procs[MAIN].hasmsg
    requires s.procs[2].state.Ready? && s.procs[2].parent == MAIN
    ensures KillOp(s, 2) == SetProc(SetCont(s, MAIN, InKill(2)), MAIN, s.procs[MAIN].(msg := 2, hasmsg := true))
  {
  }

  lemma FinishKillIs(t: KState)
    requires t.currpid == MAIN && t.conts[MAIN] == InKill(2) && t.procs[2].state.Ready? && t.conts[2] == InGetbuf(0)
    requires t.pools == [Pool(0, [4096], {}, 0)]
    ensures FinishOp(t).pools == [Pool(0, [4096], {}, 1)]
  {
    var t1 := SetCont(t, MAIN, NoCont);
    hide Remove;
    assert FinishOp(t) == SetFree(Unlink(t1, 2, READYQ), 2);
    assert Granted(t1.procs[2], t1.conts[2], 0);
  }

  lemma LostKill(s: KState)
    requires GrantedTwo(s)
    ensures Enabled(s, Kill(2))
    ensures var t := Step(s, Kill(2)); Enabled(t, Finish) && Step(t, Finish).pools == [Pool(0, [4096], {}, 1)]
  {
    hide FinishOp, KillOp;
    KillIs(s);
    FinishKillIs(KillOp(s, 2));
  }

  function LostRun5(): seq<Op> { MainRun() + [Mkbufpool(8, 1, Some(4096))] + [Getbuf(0)] + [Finish] }
  function LostRun8(): seq<Op> { TwoRun(LostRun5()) + [Getbuf(0)] }

  lemma LostTaken(s: KState)
    requires s == Boot()
    ensures Legal(s, LostRun5())
    ensures var t := Exec(s, LostRun5()); MainRuns(t) && SecondFree(t) && OnePool(t, 0, Pool(0, [], {4096}, 0), [])
  {
    hide Step, Enabled, MainRuns, Untouched, OnePool, SecondFree, Boot, MainRun;
    MainStarted(s);
    var o2 := MainRun();
    LostPool(Exec(s, o2));
    LegalPush(s, o2, Mkbufpool(8, 1, Some(4096)));
    var o3 := o2 + [Mkbufpool(8, 1, Some(4096))];
    LostTake(Exec(s, o3));
    LegalPush(s, o3, Getbuf(0));
    LegalPush(s, o3 + [Getbuf(0)], Finish);
  }

  lemma LostWaiter(s: KState)
    requires s == Boot()
    ensures Legal(s, LostRun8()) && Waiting(Exec(s, LostRun8()))
  {
    hide Step, Enabled, Boot, Waiting, LostRun5;
    LostTaken(s);
    var o5 := LostRun5();
    SecondStarts(Exec(s, o5));
    LegalPush(s, o5, Create(true, INITPRIO));
    LegalPush(s, o5 + [Create(true, INITPRIO)], Resume(2));
    SecondWaits(Exec(s, TwoRun(o5)));
    LegalPush(s, TwoRun(o5), Getbuf(0));
  }

  lemma LostKilled(s: KState)
    requires s == Boot()
    ensures Legal(s, LostRun()) && Exec(s, LostRun()).pools == [Pool(0, [4096], {}, 1)]
  {
    assert LostRun() == LostRun8() + [Start] + [Freebuf(0, 4096)] + [Kill(2)] + [Finish];
    hide Step, Enabled, Waiting, GrantedTwo, Boot, LostRun, LostRun8;
    LostWaiter(s);
    var o8 := LostRun8();
    LostGrant(Exec(s, o8));
    LegalPush(s, o8, Start);
    LegalPush(s, o8 + [Start], Freebuf(0, 4096));
    var o10 := o8 + [Start] + [Freebuf(0, 4096)];
    LostKill(Exec(s, o10));
    LegalPush(s, o10, Kill(2));
    LegalPush(s, o10 + [Kill(2)], Finish);
  }

  /** A reachable state whose pool has lost a buffer: it is on the free list, but no unit of the
      count and no waiter stands for it. */
  lemma LostWitness()
    ensures Legal(Boot(), LostRun()) && Exec(Boot(), LostRun()).pools == [Pool(0, [4096], {}, 1)]
  {
    var s: KState := Boot();
    hide Boot, LostRun, Legal, Exec;
    LostKilled(s);
  }
}
