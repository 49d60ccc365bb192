/** What insertion, early removal and the clock's release loop do to the remaining times. */
module KernelClock {
  import opened KernelState
  import opened KernelInvariant
  import opened KernelSteps
  import opened KernelSafety
  import opened DeltaList
  import opened KernelTimer

  /** Everybody but `x` who was asleep still is, in the same state and with the same time left. */
  ghost predicate OthersKeepTime(s: KState, t: KState, x: int) {
    forall q :: Asleep(s, q) && q != x ==> Asleep(t, q) && Due(t, q) == Due(s, q)
  }

  // ---- insertd ---------------------------------------------------------------------

  lemma KeyBound(l: seq<int>, keys: seq<int>, i: nat)
    requires NonNeg(l, keys) && i < |l|
    ensures Key(keys, l[i]) <= Pre(l, keys, |l|)
  {
    PreMonotone(l, keys, 0, i);
    PreMonotone(l, keys, i + 1, |l|);
  }

  lemma W32Id(x: int)
    requires MINKEY <= x <= MAXKEY
    ensures W32(x) == x
  {
  }

  /** Without overflow, `insertd` computes what the delta-list model says. */
  lemma InsertDIs(s: KState, p: int, key: int)
    requires CoreX(s, p) && 0 <= p < NPROC && TimerOK(s) && 0 <= key <= MAXKEY
    ensures var l := s.lists[SLEEPQ]; var (i, r) := DeltaPos(l, s.keys, key);
            && NoDup(l) && p !in l && (i < |l| ==> 0 <= l[i] < NPROC)
            && InsertD(s, p, key) == SetList(s, SLEEPQ, InsertAt(l, i, p)).(keys := InsertKeys(l, s.keys, p, i, r))
  {
    var l := s.lists[SLEEPQ];
    var (i, r) := DeltaPos(l, s.keys, key);
    assert NoDup(l);
    if p in l { assert false; }
    DeltaPosMeaning(l, s.keys, key);
    if i < |l| {
      assert l[i] in l;
      KeyBound(l, s.keys, i);
      W32Id(s.keys[l[i]] - r);
    }
    hide W32, DeltaPos, InsertAt, Pre;
  }

  lemma InsertDTimer(s: KState, p: int, key: int)
    requires CoreX(s, p) && 0 <= p < NPROC && TimerOK(s) && 0 <= key <= MAXKEY
    ensures TimerOK(InsertD(s, p, key))
    ensures HeadPositive(s) && key >= 1 ==> HeadPositive(InsertD(s, p, key))
  {
    var l := s.lists[SLEEPQ];
    var (i, r) := DeltaPos(l, s.keys, key);
    InsertDIs(s, p, key);
    DeltaPosMeaning(l, s.keys, key);
    InsertPre(l, s.keys, p, i, r, |l|);
    InsertNonNeg(l, s.keys, p, i, r);
    InsertAtElem(l, i, p, 0);
    if i > 0 { assert l[0] in l; if i < |l| { assert l[0] != l[i]; } }
    hide DeltaPos, InsertAt, Pre, W32, CoreX;
  }

  lemma InsertNonNeg(l: seq<int>, keys: seq<int>, p: int, i: nat, r: int)
    requires NoDup(l) && p !in l && 0 <= p < |keys| && i <= |l| && (i < |l| ==> 0 <= l[i] < |keys|)
    requires NonNeg(l, keys) && 0 <= r && (i < |l| ==> r < Key(keys, l[i]))
    ensures NonNeg(InsertAt(l, i, p), InsertKeys(l, keys, p, i, r))
    ensures i > 0 ==> Key(InsertKeys(l, keys, p, i, r), InsertAt(l, i, p)[0]) == Key(keys, l[0])
    ensures i == 0 ==> Key(InsertKeys(l, keys, p, i, r), InsertAt(l, i, p)[0]) == r
  {
    var l', keys' := InsertAt(l, i, p), InsertKeys(l, keys, p, i, r);
    hide InsertAt;
    forall j: nat | j < |l'|
      ensures Key(keys', l'[j]) >= 0
    {
      InsertAtElem(l, i, p, j);
      if j != i { assert Key(keys, l[if j < i then j else j - 1]) >= 0; }
    }
    InsertAtElem(l, i, p, 0);
    if i > 0 { assert l[0] in l; if i < |l| { assert l[0] != l[i]; } }
  }

  /** `insertd` gives the new sleeper its delay and leaves the others alone. */
  lemma InsertDTime(s: KState, p: int, key: int)
    requires CoreX(s, p) && 0 <= p < NPROC && TimerOK(s) && 0 <= key <= MAXKEY
    ensures var t := InsertD(s, p, key);
            Asleep(t, p) && Due(t, p) == key && OthersKeepTime(s, t, p)
  {
    var l := s.lists[SLEEPQ];
    var (i, r) := DeltaPos(l, s.keys, key);
    InsertDIs(s, p, key);
    DeltaPosMeaning(l, s.keys, key);
    forall q
      ensures Asleep(s, q) ==> Asleep(InsertD(s, p, key), q) && Due(InsertD(s, p, key), q) == Due(s, q)
    {
      InsertRemaining(l, s.keys, p, i, r, q);
    }
    InsertRemaining(l, s.keys, p, i, r, p);
    hide DeltaPos, InsertAt, Pre, W32, CoreX, Remaining;
  }

  // ---- unsleep ---------------------------------------------------------------------

  lemma SleepersInRange(s: KState, x: int)
    requires CoreX(s, x)
    ensures NoDup(s.lists[SLEEPQ])
    ensures forall j :: 0 <= j < |s.lists[SLEEPQ]| ==> 0 <= s.lists[SLEEPQ][j] < NPROC
  {
    forall j | 0 <= j < |s.lists[SLEEPQ]|
      ensures 0 <= s.lists[SLEEPQ][j] < NPROC
    {
      assert s.lists[SLEEPQ][j] in s.lists[SLEEPQ];
    }
    assert NoDup(s.lists[SLEEPQ]);
  }

  lemma UnsleepIs(s: KState, p: int)
    requires Core(s) && Asleep(s, p) && TimerOK(s)
    ensures var l := s.lists[SLEEPQ]; var i := IndexOf(l, p);
            && 0 <= p < NPROC
            && Unsleep(s, p) == SetList(s, SLEEPQ, RemoveAt(l, i)).(keys := RemoveKeys(l, s.keys, i))
  {
    SleepersInRange(s, -1);
    var l := s.lists[SLEEPQ];
    var i := IndexOf(l, p);
    hide CoreX, IndexOf;
    if i + 1 < |l| {
      PairBound(l, s.keys, i);
      W32Id(s.keys[l[i + 1]] + s.keys[p]);
    }
  }

  lemma PairBound(l: seq<int>, keys: seq<int>, i: nat)
    requires NonNeg(l, keys) && i + 1 < |l|
    ensures 0 <= Key(keys, l[i]) + Key(keys, l[i + 1]) <= Pre(l, keys, |l|)
  {
    PreMonotone(l, keys, 0, i);
    PreMonotone(l, keys, i + 2, |l|);
  }

  lemma RemoveNonNeg(l: seq<int>, keys: seq<int>, i: nat)
    requires NoDup(l) && i < |l| && (forall j :: 0 <= j < |l| ==> 0 <= l[j] < |keys|) && NonNeg(l, keys)
    ensures NonNeg(RemoveAt(l, i), RemoveKeys(l, keys, i))
    ensures |l| > 1 && Key(keys, l[0]) >= 1 ==> Key(RemoveKeys(l, keys, i), RemoveAt(l, i)[0]) >= 1
  {
    var l', keys' := RemoveAt(l, i), RemoveKeys(l, keys, i);
    forall j: nat | j < |l'|
      ensures Key(keys', l'[j]) >= 0 && (j == 0 && Key(keys, l[0]) >= 1 ==> Key(keys', l'[j]) >= 1)
    {
      RemoveAtElem(l, i, j);
      if j < i && i + 1 < |l| { assert l[j] != l[i + 1]; }
      if j > i { assert l[j + 1] != l[i + 1]; }
    }
    hide RemoveAt;
  }

  lemma RemoveTimer(l: seq<int>, keys: seq<int>, i: nat)
    requires NoDup(l) && i < |l| && (forall j :: 0 <= j < |l| ==> 0 <= l[j] < |keys|) && NonNeg(l, keys)
    ensures var l', keys' := RemoveAt(l, i), RemoveKeys(l, keys, i);
            && |l'| == |l| - 1 && NonNeg(l', keys') && Pre(l', keys', |l'|) <= Pre(l, keys, |l|)
            && (|l| > 1 && Key(keys, l[0]) >= 1 ==> Key(keys', l'[0]) >= 1)
  {
    assert |RemoveAt(l, i)| == |l| - 1;
    hide NonNeg, Pre, RemoveKeys, NoDup, RemoveAt, Key;
    RemovePre(l, keys, i, |l| - 1);
    PreMonotone(l, keys, |l| - 1, |l|);
    RemoveNonNeg(l, keys, i);
  }

  lemma UnsleepTimer(s: KState, p: int)
    requires Core(s) && Asleep(s, p) && TimerOK(s) && 0 <= p < NPROC
    ensures TimerOK(Unsleep(s, p)) && (HeadPositive(s) ==> HeadPositive(Unsleep(s, p)))
  {
    SleepersInRange(s, -1);
    UnsleepIs(s, p);
    hide CoreX, Unsleep, W32, IndexOf, NonNeg, Pre, RemoveAt, RemoveKeys, NoDup;
    RemoveTimer(s.lists[SLEEPQ], s.keys, IndexOf(s.lists[SLEEPQ], p));
  }

  /** `unsleep` takes one sleeper out and leaves the others alone. */
  lemma UnsleepTime(s: KState, p: int)
    requires Core(s) && Asleep(s, p) && TimerOK(s)
    ensures 0 <= p < NPROC
    ensures !Asleep(Unsleep(s, p), p) && OthersKeepTime(s, Unsleep(s, p), p)
  {
    SleepersInRange(s, -1);
    UnsleepIs(s, p);
    hide CoreX, Unsleep, W32, Pre, Remaining, IndexOf, RemoveKeys;
    var l := s.lists[SLEEPQ];
    RemoveAtNoDup(l, IndexOf(l, p));
    forall q | Asleep(s, q) && q != p
      ensures Asleep(Unsleep(s, p), q) && Due(Unsleep(s, p), q) == Due(s, q)
    {
      RemoveRemaining(l, s.keys, p, q);
    }
  }

  // ---- one tick --------------------------------------------------------------------

  /** Releasing the head hands nothing on: the others lose the key of the head. */
  lemma PopTime(s: KState, q: int)
    requires Core(s) && s.lists[SLEEPQ] != [] && Asleep(s, q) && q != s.lists[SLEEPQ][0]
    ensures var m := ReleaseFirst(s, SLEEPQ);
            Asleep(m, q) && Due(m, q) == Due(s, q) - Key(s.keys, s.lists[SLEEPQ][0])
  {
    ReleaseFirstFrame(s, SLEEPQ);
    SleepersInRange(s, -1);
    var m := ReleaseFirst(s, SLEEPQ);
    hide CoreX, ReleaseFirst;
    var l := s.lists[SLEEPQ];
    var l' := l[1..];
    var j := IndexOf(l, q);
    assert l'[j - 1] == q;
    IndexOfAt(l', j - 1);
    PreTail(l, s.keys, j);
    forall i | 0 <= i < j
      ensures Key(m.keys, l'[i]) == Key(s.keys, l'[i])
    {
      assert l[i + 1] != l[0];
    }
    PreSame(l', s.keys, l', m.keys, j);
  }

  lemma PopTimer(s: KState)
    requires Core(s) && s.lists[SLEEPQ] != []
    requires var l := s.lists[SLEEPQ]; NonNeg(l[1..], s.keys) && Pre(l, s.keys, |l|) - Key(s.keys, l[0]) <= MAXKEY
    ensures TimerOK(ReleaseFirst(s, SLEEPQ))
  {
    ReleaseFirstFrame(s, SLEEPQ);
    SleepersInRange(s, -1);
    var m := ReleaseFirst(s, SLEEPQ);
    hide CoreX, ReleaseFirst;
    var l := s.lists[SLEEPQ];
    var l' := l[1..];
    forall i | 0 <= i < |l'|
      ensures Key(m.keys, l'[i]) == Key(s.keys, l'[i])
    {
      assert l[i + 1] != l[0];
    }
    PreTail(l, s.keys, |l| - 1);
    PreSame(l', s.keys, l', m.keys, |l'|);
  }

  lemma ReleaseKeepsRunning(s: KState, k: int)
    requires 0 <= k < NLISTS
    ensures KeepsRunning(s, ReleaseFirst(s, k))
  {
    hide KeyPos, InsertAt;
  }

  lemma {:induction false} WakeKeepsRunning(s: KState)
    ensures KeepsRunning(s, WakeLoop(s))
    decreases |s.lists[SLEEPQ]|
  {
    var l := s.lists[SLEEPQ];
    if !(l == [] || !(0 <= l[0] < NPROC) || s.keys[l[0]] > 0) {
      ReleaseKeepsRunning(s, SLEEPQ);
      WakeKeepsRunning(ReleaseFirst(s, SLEEPQ));
      RunningTrans(s, ReleaseFirst(s, SLEEPQ), WakeLoop(s));
    }
  }

  /** What a sleeper finds after time has advanced by `d` for everybody. */
  ghost predicate Aged(s: KState, t: KState, q: int, d: int)
    requires Asleep(s, q)
  {
    if Due(s, q) <= d then !Asleep(t, q) && 0 <= q < NPROC && Runs(t.procs[q])
    else Asleep(t, q) && Due(t, q) == Due(s, q) - d
  }

  lemma DuePositive(s: KState, q: int)
    requires TimerOK(s) && Asleep(s, q)
    ensures Due(s, q) >= Key(s.keys, s.lists[SLEEPQ][0])
  {
    var l := s.lists[SLEEPQ];
    assert Pre(l, s.keys, 1) == Pre(l, s.keys, 0) + Key(s.keys, l[0]);
    PreMonotone(l, s.keys, 1, IndexOf(l, q) + 1);
  }

  /** The loop of `wakeup` releases exactly the sleepers with no time left. */
  lemma {:induction false} WakeLoopTime(s: KState, q: int)
    requires Core(s) && Rest(s) && TimerOK(s) && Asleep(s, q)
    ensures Aged(s, WakeLoop(s), q, 0)
    decreases |s.lists[SLEEPQ]|
  {
    SleeperState(s, -1, q);
    SleepersInRange(s, -1);
    var l := s.lists[SLEEPQ];
    var m := ReleaseFirst(s, SLEEPQ);
    DuePositive(s, q);
    ReleaseFirstFrame(s, SLEEPQ);
    WakeLoopRest(s);
    hide CoreX, Rest, ReleaseFirst;
    if s.keys[l[0]] <= 0 {
      assert forall i :: 0 <= i < |l[1..]| ==> l[1..][i] == l[i + 1];
      PopTimer(s);
      PopCore(s);
      if q == l[0] {
        HeadReleased(s, q);
      } else {
        PopTime(s, q);
        WakeLoopTime(m, q);
      }
    }
  }

  lemma PopCore(s: KState)
    requires Core(s) && Rest(s) && s.lists[SLEEPQ] != []
    ensures Core(ReleaseFirst(s, SLEEPQ)) && Rest(ReleaseFirst(s, SLEEPQ))
  {
    var p := s.lists[SLEEPQ][0];
    ReleaseFirstCore(s, SLEEPQ);
    ReleaseFirstFrame(s, SLEEPQ);
    Fits(s, p);
    hide CoreX, Rest, ReleaseFirst;
    RestMove(s, ReleaseFirst(s, SLEEPQ), p);
  }

  lemma HeadReleased(s: KState, q: int)
    requires Core(s) && Rest(s) && s.lists[SLEEPQ] != [] && q == s.lists[SLEEPQ][0] && TimerOK(s)
    requires Key(s.keys, q) <= 0
    ensures Aged(s, WakeLoop(s), q, 0)
  {
    var l := s.lists[SLEEPQ];
    SleepersInRange(s, -1);
    IndexOfAt(l, 0);
    assert Pre(l, s.keys, 1) == Pre(l, s.keys, 0) + Key(s.keys, l[0]);
    OverdueReleased(s, ReleaseFirst(s, SLEEPQ));
  }

  lemma {:induction false} WakeLoopTimer(s: KState)
    requires Core(s) && Rest(s) && TimerOK(s)
    ensures TimerOK(WakeLoop(s)) && HeadPositive(WakeLoop(s))
    decreases |s.lists[SLEEPQ]|
  {
    SleepersInRange(s, -1);
    var l := s.lists[SLEEPQ];
    hide CoreX, Rest, ReleaseFirst;
    if l != [] {
      ReleaseFirstFrame(s, SLEEPQ);
      if s.keys[l[0]] <= 0 {
        assert forall i :: 0 <= i < |l[1..]| ==> l[1..][i] == l[i + 1];
        PopTimer(s);
        PopCore(s);
        WakeLoopTimer(ReleaseFirst(s, SLEEPQ));
      }
    }
  }

  /** Decrementing the first key takes one tick from everybody. */
  lemma DecFirstTime(s: KState)
    requires Core(s) && TimerOK(s) && s.lists[SLEEPQ] != []
    ensures var t := DecFirst(s); var l := s.lists[SLEEPQ];
            && t == s.(keys := t.keys)
            && Key(t.keys, l[0]) == Key(s.keys, l[0]) - 1
            && (forall i :: 0 < i < |l| ==> Key(t.keys, l[i]) == Key(s.keys, l[i]))
            && (forall n: nat :: 1 <= n <= |l| ==> Pre(l, t.keys, n) == Pre(l, s.keys, n) - 1)
  {
    SleepersInRange(s, -1);
    var l := s.lists[SLEEPQ];
    KeyBound(l, s.keys, 0);
    W32Id(s.keys[l[0]] - 1);
    hide CoreX, W32;
    var t := DecFirst(s);
    forall i | 0 < i < |l|
      ensures Key(t.keys, l[i]) == Key(s.keys, l[i])
    {
      assert l[0] != l[i];
    }
    forall n: nat | 1 <= n <= |l|
      ensures Pre(l, t.keys, n) == Pre(l, s.keys, n) - 1
    {
      ShiftPre(l, s.keys, t.keys, -1, n);
    }
  }

  /** A change of the first key shifts all prefix sums. */
  lemma {:induction false} ShiftPre(l: seq<int>, keys: seq<int>, keys': seq<int>, c: int, n: nat)
    requires 1 <= n <= |l| && Key(keys', l[0]) == Key(keys, l[0]) + c
    requires forall i :: 0 < i < |l| ==> Key(keys', l[i]) == Key(keys, l[i])
    ensures Pre(l, keys', n) == Pre(l, keys, n) + c
  {
    if n == 1 {
      assert Pre(l, keys', 0) == Pre(l, keys, 0) == 0;
    } else {
      ShiftPre(l, keys, keys', c, n - 1);
    }
  }

  /** The sleep queue after the decrement and the wake-up loop. */
  lemma WakeTime(s: KState, q: int)
    requires Core(s) && Rest(s) && TimerOK(s) && s.lists[SLEEPQ] != [] && Asleep(s, q)
    ensures Aged(s, WakeLoop(DecFirst(s)), q, if HeadPositive(s) then 1 else 0)
    ensures TimerOK(WakeLoop(DecFirst(s))) && HeadPositive(WakeLoop(DecFirst(s)))
  {
    var l := s.lists[SLEEPQ];
    var s1 := DecFirst(s);
    DecFirstTime(s);
    DecFirstCore(s);
    SleepersInRange(s, -1);
    hide CoreX, Rest, DecFirst;
    if HeadPositive(s) {
      assert Due(s1, q) == Due(s, q) - 1;
      assert NonNeg(l, s1.keys) by {
        forall i | 0 <= i < |l|
          ensures Key(s1.keys, l[i]) >= 0
        {
          if i > 0 { assert Key(s1.keys, l[i]) == Key(s.keys, l[i]); }
        }
      }
      WakeLoopTime(s1, q);
      WakeLoopTimer(s1);
    } else {
      assert Due(s1, q) == Due(s, q) - 1;
      OverdueHead(s, s1, q);
    }
  }

  lemma DecFirstCore(s: KState)
    requires Core(s) && Rest(s)
    ensures Core(DecFirst(s)) && Rest(DecFirst(s))
  {
    var l := s.lists[SLEEPQ];
    if l != [] { assert l[0] in l; }
    SameReadyKeys(s, DecFirst(s), -1);
    RestFrame(s, DecFirst(s));
  }

  /** With an overdue head the tick is spent on it, and nobody else gets closer. */
  lemma OverdueHead(s: KState, s1: KState, q: int)
    requires Core(s1) && Rest(s1) && TimerOK(s) && s.lists[SLEEPQ] != [] && Asleep(s, q) && !HeadPositive(s)
    requires s1 == s.(keys := s1.keys)
    requires var l := s.lists[SLEEPQ];
             && Key(s1.keys, l[0]) == Key(s.keys, l[0]) - 1
             && (forall i :: 0 < i < |l| ==> Key(s1.keys, l[i]) == Key(s.keys, l[i]))
             && Pre(l, s1.keys, |l|) == Pre(l, s.keys, |l|) - 1 && Due(s1, q) == Due(s, q) - 1
    ensures Aged(s, WakeLoop(s1), q, 0)
    ensures TimerOK(WakeLoop(s1)) && HeadPositive(WakeLoop(s1))
  {
    var l := s.lists[SLEEPQ];
    SleepersInRange(s1, -1);
    assert Key(s.keys, l[0]) == 0;
    OverdueStep(s1);
    hide CoreX, Rest, ReleaseFirst, WakeLoop;
    if q == l[0] {
      IndexOfAt(l, 0);
      assert Pre(l, s.keys, 1) == Pre(l, s.keys, 0) + Key(s.keys, l[0]);
      OverdueReleased(s1, ReleaseFirst(s1, SLEEPQ));
    } else {
      PopTime(s1, q);
      hide Due, TimerOK;
      WakeLoopTime(ReleaseFirst(s1, SLEEPQ), q);
    }
  }

  lemma OverdueStep(s: KState)
    requires Core(s) && Rest(s) && s.lists[SLEEPQ] != []
    requires var l := s.lists[SLEEPQ];
             && Key(s.keys, l[0]) == -1 && Pre(l, s.keys, |l|) < MAXKEY
             && (forall i :: 0 < i < |l| ==> Key(s.keys, l[i]) >= 0)
    ensures var m := ReleaseFirst(s, SLEEPQ);
            && Core(m) && Rest(m) && TimerOK(m) && WakeLoop(s) == WakeLoop(m)
            && TimerOK(WakeLoop(s)) && HeadPositive(WakeLoop(s))
  {
    var l := s.lists[SLEEPQ];
    SleepersInRange(s, -1);
    hide CoreX, Rest, ReleaseFirst;
    assert forall i :: 0 <= i < |l[1..]| ==> l[1..][i] == l[i + 1];
    PopTimer(s);
    PopCore(s);
    WakeLoopTimer(ReleaseFirst(s, SLEEPQ));
  }

  lemma OverdueReleased(s: KState, m: KState)
    requires Core(s) && Rest(s) && s.lists[SLEEPQ] != [] && m == ReleaseFirst(s, SLEEPQ)
    requires WakeLoop(s) == WakeLoop(m)
    ensures var q := s.lists[SLEEPQ][0]; !Asleep(WakeLoop(s), q) && 0 <= q < NPROC && Runs(WakeLoop(s).procs[q])
  {
    var q := s.lists[SLEEPQ][0];
    ReleaseFirstFrame(s, SLEEPQ);
    WakeKeepsRunning(m);
    WakeLoopRest(s);
    assert Runs(m.procs[q]);
    hide WakeLoop, ReleaseFirst;
    if Asleep(WakeLoop(s), q) { SleeperState(WakeLoop(s), -1, q); }
  }
}
