/**
 Delays above 2^31-1: `sleepms` accepts them, but the int32 key does not hold them.  What such
 a call does to its caller and to the other sleepers.
 */
module KernelLongDelay {
  import opened KernelState
  import opened KernelInvariant
  import opened KernelSteps
  import opened KernelSafety
  import opened KernelTimer
  import opened KernelClock
  import opened KernelWakeup

  const WORD := 0x1_0000_0000

  /** `sleepms` takes 32-bit unsigned delays; one that does not fit the key goes to the head of
      the queue with a negative key. */
  lemma LongDelay(s: KState, d: int)
    requires Inv(s) && Enabled(s, Sleepms(d)) && TimerOK(s) && MAXKEY < d < WORD
    ensures var t, l := Step(s, Sleepms(d)), s.lists[SLEEPQ];
            && t.lists[SLEEPQ] == [s.currpid] + l && t.keys[s.currpid] == d - WORD < 0 && s.currpid !in l
            && (l != [] ==> 0 <= l[0] < NPROC && t.keys[l[0]] == W32(s.keys[l[0]] + (WORD - d)))
            && forall q :: 0 <= q < NPROC && q != s.currpid && (l != [] ==> q != l[0]) ==> t.keys[q] == s.keys[q]
  {
    InvRuns(s);
    SleepersInRange(s, -1);
    AwakeCurr(s);
    var l, k := s.lists[SLEEPQ], d - WORD;
    assert W32(d) == k;
    assert DeltaPos(l, s.keys, k) == (0, k);
    var m := SetState(InsertD(s, s.currpid, k), s.currpid, Sleep);
    hide W32, DeltaPos, CoreX, Rest, KeyPos;
    assert m.lists[SLEEPQ] == [s.currpid] + l && m.keys[s.currpid] == k;
    assert Resched(m).keys == m.keys;
  }

  lemma HeadPops(s: KState, p: int)
    requires Core(s) && Rest(s) && s.lists[SLEEPQ] != [] && p == s.lists[SLEEPQ][0] && Key(s.keys, p) <= 0
    ensures Awake(WakeLoop(s), p)
  {
    SleepersInRange(s, -1);
    OverdueReleased(s, ReleaseFirst(s, SLEEPQ));
  }

  lemma TickReleases(s: KState, s1: KState)
    requires Inv(s) && Enabled(s, Tick) && s.lists[SLEEPQ] != [] && s1 == DecFirst(SetCont(s, s.currpid, InTick))
    requires s1.lists == s.lists && Key(s1.keys, s.lists[SLEEPQ][0]) <= 0
    ensures Awake(Step(s, Tick), s.lists[SLEEPQ][0])
  {
    hide CoreX, Rest, DecFirst, Resched, WakeLoop, Awake, KeepsRunning;
    SetContInv(s, InTick);
    DecFirstInv(SetCont(s, s.currpid, InTick));
    TickInv(s);
    ReschedCalm(WakeLoop(s1));
    HeadPops(s1, s.lists[SLEEPQ][0]);
    StillAwake(WakeLoop(s1), Resched(WakeLoop(s1)), s.lists[SLEEPQ][0]);
  }

  /** A tick releases a head that has no time left, unless its decrement wraps around. */
  lemma OverdueTick(s: KState)
    requires Inv(s) && Enabled(s, Tick) && s.lists[SLEEPQ] != []
    requires var l := s.lists[SLEEPQ]; MINKEY <= Key(s.keys, l[0]) <= 0
    ensures var p := s.lists[SLEEPQ][0]; Awake(Step(s, Tick), p) <==> Key(s.keys, p) != MINKEY
  {
    var p := s.lists[SLEEPQ][0];
    SleepersInRange(s, -1);
    InvRuns(s);
    hide Inv, Enabled, CoreX;
    var s1 := DecFirst(SetCont(s, s.currpid, InTick));
    assert s1.lists == s.lists && s1.keys[p] == W32(s.keys[p] - 1);
    if s.keys[p] != MINKEY {
      W32Id(s.keys[p] - 1);
      hide DecFirst, W32, Step, Awake;
      TickReleases(s, s1);
    } else {
      assert W32(MINKEY - 1) == MAXKEY;
      hide DecFirst, W32;
      assert Step(s, Tick) == s1;
    }
  }

  lemma StillAwake(w: KState, t: KState, p: int)
    requires Awake(w, p) && KeepsRunning(w, t) && Core(t)
    ensures Awake(t, p)
  {
    assert Runs(t.procs[p]);
    if Asleep(t, p) { SleeperState(t, -1, p); }
  }

  /** So such a sleeper is awake after a single tick, except for 2^31, whose key wraps. */
  lemma LongDelayWakes(s: KState, d: int)
    requires Inv(s) && Enabled(s, Sleepms(d)) && TimerOK(s) && MAXKEY < d < WORD
    requires Enabled(Step(s, Sleepms(d)), Tick)
    ensures Awake(Step(Step(s, Sleepms(d)), Tick), s.currpid) <==> d != 0x8000_0000
  {
    LongDelay(s, d);
    StepInv(s, Sleepms(d));
    InvRuns(s);
    hide Inv, Step, Awake, Enabled;
    OverdueTick(Step(s, Sleepms(d)));
  }

  // ---- the other sleepers ----------------------------------------------------------

  /** The state when the tick that follows has taken the caller off the queue again. */
  lemma CallerPopped(t: KState, p: int, l: seq<int>)
    requires Inv(t) && Enabled(t, Tick) && t.lists[SLEEPQ] == [p] + l && 0 <= p < NPROC && MINKEY < t.keys[p] <= 0
    ensures var m := ReleaseFirst(DecFirst(SetCont(t, t.currpid, InTick)), SLEEPQ);
            && Core(m) && Rest(m) && CurrInRange(m) && m.lists[SLEEPQ] == l
            && Step(t, Tick) == Resched(WakeLoop(m))
            && forall q :: 0 <= q < NPROC && q != p ==> m.keys[q] == t.keys[q]
  {
    InvRuns(t);
    SetContInv(t, InTick);
    var t0 := SetCont(t, t.currpid, InTick);
    DecFirstInv(t0);
    W32Id(t.keys[p] - 1);
    var t1 := DecFirst(t0);
    assert t1 == t0.(keys := t0.keys[p := t.keys[p] - 1]);
    hide W32, DecFirst;
    PopCore(t1);
    ReleaseFirstFrame(t1, SLEEPQ);
    hide Inv, CoreX, Rest, Resched, ReleaseFirst;
    assert ([p] + l)[1..] == l;
    assert WakeLoop(t1) == WakeLoop(ReleaseFirst(t1, SLEEPQ));
  }

  /** The others keep their places, all due later by the same amount. */
  lemma ShiftedDue(s: KState, m: KState, l: seq<int>, c: int, q: int)
    requires l == s.lists[SLEEPQ] == m.lists[SLEEPQ] && q in l && NoDup(l)
    requires forall i :: 0 <= i < |l| ==> 0 <= l[i] < NPROC
    requires m.keys[l[0]] == s.keys[l[0]] + c && forall i :: 0 < i < |l| ==> m.keys[l[i]] == s.keys[l[i]]
    ensures Asleep(m, q) && Due(m, q) == Due(s, q) + c
  {
    ShiftPre(l, s.keys, m.keys, c, IndexOf(l, q) + 1);
  }

  /** A head with time left stays, through the release loop and the reschedule. */
  lemma LateQueue(m: KState, q: int)
    requires Core(m) && CurrInRange(m) && m.lists[SLEEPQ] != [] && Key(m.keys, m.lists[SLEEPQ][0]) > 0
    requires Core(Resched(WakeLoop(m))) && Asleep(m, q)
    ensures var u := Resched(WakeLoop(m)); Asleep(u, q) && Due(u, q) == Due(m, q)
  {
    SleepersInRange(m, -1);
    assert WakeLoop(m) == m;
    hide WakeLoop, Due;
    ReschedCalm(m);
    hide CoreX, Resched, Calm;
    CalmTime(m, -1, Resched(m));
  }

  lemma EarlyQueue(m: KState)
    requires Core(m) && Rest(m) && CurrInRange(m) && m.lists[SLEEPQ] != [] && Key(m.keys, m.lists[SLEEPQ][0]) <= 0
    requires Core(Resched(WakeLoop(m)))
    ensures Awake(Resched(WakeLoop(m)), m.lists[SLEEPQ][0])
  {
    hide CoreX, Rest, WakeLoop, Resched, Awake, KeepsRunning;
    HeadPops(m, m.lists[SLEEPQ][0]);
    ReschedCalm(WakeLoop(m));
    StillAwake(WakeLoop(m), Resched(WakeLoop(m)), m.lists[SLEEPQ][0]);
  }

  /** A delay of d above 2^31 costs the sleepers that were there: they are all due 2^32-d ticks
      later than they asked for, if the first key can hold that; otherwise the first of them is
      woken with the caller. */
  lemma LongDelayOthers(s: KState, d: int, q: int)
    requires Inv(s) && Enabled(s, Sleepms(d)) && TimerOK(s) && 0x8000_0000 < d < WORD
    requires Enabled(Step(s, Sleepms(d)), Tick) && Asleep(s, q)
    ensures var u, first := Step(Step(s, Sleepms(d)), Tick), s.lists[SLEEPQ][0];
            if Key(s.keys, first) + (WORD - d) <= MAXKEY then Asleep(u, q) && Due(u, q) == Due(s, q) + (WORD - d)
            else Awake(u, first)
  {
    hide Inv, Step, CoreX, Rest, Enabled, TimerOK, W32, Due, Awake, Resched, WakeLoop, NoDup;
    var l, c := s.lists[SLEEPQ], WORD - d;
    FirstKey(s);
    var m := AfterCaller(s, d);
    if s.keys[l[0]] + c <= MAXKEY {
      W32Id(s.keys[l[0]] + c);
      ShiftedDue(s, m, l, c, q);
      LateQueue(m, q);
    } else {
      Wraps(s.keys[l[0]] + c);
      EarlyQueue(m);
    }
  }

  /** The state in which the tick has taken the caller off again and nobody else. */
  lemma AfterCaller(s: KState, d: int) returns (m: KState)
    requires Inv(s) && Enabled(s, Sleepms(d)) && TimerOK(s) && 0x8000_0000 < d < WORD && s.lists[SLEEPQ] != []
    requires Enabled(Step(s, Sleepms(d)), Tick)
    ensures Core(m) && Rest(m) && CurrInRange(m) && m.lists[SLEEPQ] == s.lists[SLEEPQ]
    ensures Step(Step(s, Sleepms(d)), Tick) == Resched(WakeLoop(m)) && Core(Resched(WakeLoop(m)))
    ensures var l := s.lists[SLEEPQ];
            && (forall i :: 0 <= i < |l| ==> 0 <= l[i] < NPROC)
            && m.keys[l[0]] == W32(s.keys[l[0]] + (WORD - d))
            && (forall i :: 0 < i < |l| ==> m.keys[l[i]] == s.keys[l[i]])
  {
    var p, l, t := s.currpid, s.lists[SLEEPQ], Step(s, Sleepms(d));
    InvRuns(s);
    SleepersInRange(s, -1);
    hide Inv, Step, CoreX, Rest, Enabled, TimerOK, W32, Resched, WakeLoop, ReleaseFirst, DecFirst;
    LongDelay(s, d);
    StepInv(s, Sleepms(d));
    InvRuns(t);
    StepInv(t, Tick);
    StepCore(t);
    CallerPopped(t, p, l);
    m := ReleaseFirst(DecFirst(SetCont(t, t.currpid, InTick)), SLEEPQ);
    forall i | 0 < i < |l|
      ensures m.keys[l[i]] == s.keys[l[i]]
    {
      assert l[i] in l && l[i] != l[0] && l[i] != p;
    }
    assert l[0] in l && l[0] != p;
  }

  lemma FirstKey(s: KState)
    requires Inv(s) && TimerOK(s) && s.lists[SLEEPQ] != []
    ensures var l := s.lists[SLEEPQ]; NoDup(l) && 0 <= l[0] < NPROC && 0 <= s.keys[l[0]] <= MAXKEY && CurrInRange(s)
  {
    SleepersInRange(s, -1);
    KeyBound(s.lists[SLEEPQ], s.keys, 0);
  }

  lemma StepCore(t: KState)
    requires CurrInRange(t) && Inv(Step(t, Tick))
    ensures Core(Step(t, Tick))
  {
  }

  lemma Wraps(x: int)
    requires MAXKEY < x < WORD
    ensures W32(x) == x - WORD
  {
  }
}
