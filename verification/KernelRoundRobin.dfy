/** Repeated rescheduling cycles through the processes tied for the highest priority. */
module KernelRoundRobin {
  import opened KernelState
  import opened KernelInvariant

  function ReschedN(s: KState, n: nat): KState
    requires CurrInRange(s)
  {
    if n == 0 then s else var t := ReschedN(s, n - 1); if CurrInRange(t) then Resched(t) else t
  }

  /** The running process and the ready processes of equal priority, in ready-list order. */
  function TiedRing(s: KState): seq<int>
    requires CurrInRange(s)
  {
    var l := s.lists[READYQ];
    [s.currpid] + l[..KeyPos(l, s.keys, s.procs[s.currpid].prio)]
  }

  function Rotate(r: seq<int>): seq<int>
    requires r != []
  {
    r[1..] + [r[0]]
  }

  ghost predicate Steady(s: KState) { Core(s) && Running(s) && s.ndefers == 0 }

  /** `r` is the ring of processes tied at the top. */
  ghost predicate IsRing(s: KState, r: seq<int>) {
    var l := s.lists[READYQ];
    && CurrInRange(s)
    && 1 <= |r| <= |l| + 1
    && r == [s.currpid] + l[..|r| - 1]
    && (forall i :: 0 <= i < |r| ==> 0 <= r[i] < NPROC && s.procs[r[i]].prio == s.procs[s.currpid].prio)
    && (|r| <= |l| ==> Key(s.keys, l[|r| - 1]) < s.procs[s.currpid].prio)
  }

  lemma TiedRingIsRing(s: KState)
    requires Steady(s)
    ensures IsRing(s, TiedRing(s))
  {
    var l := s.lists[READYQ];
    var prio := s.procs[s.currpid].prio;
    var m := KeyPos(l, s.keys, prio);
    forall i | 0 <= i < m
      ensures 0 <= l[i] < NPROC && s.procs[l[i]].prio == prio
    {
      assert l[i] in l;
      assert Key(s.keys, l[i]) >= prio;
    }
  }

  /** The insertion point of the running process is right behind its ring. */
  lemma RingEnd(s: KState, r: seq<int>)
    requires Core(s) && IsRing(s, r)
    ensures KeyPos(s.lists[READYQ], s.keys, s.procs[s.currpid].prio) == |r| - 1
  {
    var l := s.lists[READYQ];
    forall j | 0 <= j < |r| - 1
      ensures Key(s.keys, l[j]) >= s.procs[s.currpid].prio
    {
      assert l[j] in l && l[j] == r[j + 1];
    }
    KeyPosUnique(l, s.keys, s.procs[s.currpid].prio, |r| - 1);
  }

  /** With nobody tied the running process stays. */
  lemma AloneStays(s: KState)
    requires Steady(s) && IsRing(s, [s.currpid])
    ensures Resched(s) == s
  {
    var l := s.lists[READYQ];
    if l != [] { assert l[0] in l; }
  }

  /** Otherwise it goes behind its ring and the next member runs. */
  lemma NextRuns(s: KState, r: seq<int>)
    requires Steady(s) && IsRing(s, r) && |r| > 1
    ensures var t := Resched(s); var l := s.lists[READYQ];
            && t.currpid == l[0]
            && t.lists[READYQ] == l[1..|r| - 1] + [s.currpid] + l[|r| - 1..]
            && (forall q :: 0 <= q < NPROC ==> t.procs[q].prio == s.procs[q].prio)
            && (forall q :: 0 <= q < NPROC && q != s.currpid ==> t.keys[q] == s.keys[q])
  {
    RingEnd(s, r);
    var l := s.lists[READYQ];
    var m := |r| - 1;
    assert r[1] == l[0] && l[0] in l;
    assert s.keys[l[0]] == s.procs[l[0]].prio;
    assert MakeReady(s, s.currpid).lists[READYQ] == l[..m] + [s.currpid] + l[m..];
    hide CoreX, Running, KeyPos, InsertAt;
  }

  /** One reschedule turns the ring by one place. */
  lemma RotateStep(s: KState, r: seq<int>)
    requires Steady(s) && IsRing(s, r)
    ensures Steady(Resched(s)) && IsRing(Resched(s), Rotate(r))
  {
    ReschedCore(s);
    if |r| == 1 {
      assert r == [s.currpid] && Rotate(r) == r;
      AloneStays(s);
    } else {
      NextRuns(s, r);
      RingAfter(s, Resched(s), r);
    }
    hide CoreX, Resched, IsRing;
  }

  lemma RingAfter(s: KState, t: KState, r: seq<int>)
    requires Core(s) && Core(t) && IsRing(s, r) && |r| > 1 && CurrInRange(t)
    requires var l := s.lists[READYQ]; t.lists[READYQ] == l[1..|r| - 1] + [s.currpid] + l[|r| - 1..]
    requires t.currpid == s.lists[READYQ][0]
    requires forall q :: 0 <= q < NPROC ==> t.procs[q].prio == s.procs[q].prio
    requires forall q :: 0 <= q < NPROC && q != s.currpid ==> t.keys[q] == s.keys[q]
    ensures IsRing(t, Rotate(r))
  {
    hide CoreX;
    var l, l' := s.lists[READYQ], t.lists[READYQ];
    var r' := Rotate(r);
    var m := |r| - 1;
    assert r[1] == l[0];
    assert r' == [t.currpid] + l'[..m] by {
      assert l'[..m] == l[1..m] + [s.currpid];
      assert r[1..] == l[..m] == [l[0]] + l[1..m];
    }
    forall i | 0 <= i < |r'|
      ensures 0 <= r'[i] < NPROC && t.procs[r'[i]].prio == t.procs[t.currpid].prio
    {
      assert r'[i] == r[if i + 1 < |r| then i + 1 else 0];
    }
    if m < |l'| {
      assert l'[m] == l[m];
      NotCurrent(s, m);
    }
  }

  lemma NotCurrent(s: KState, i: nat)
    requires Core(s) && i < |s.lists[READYQ]| && s.procs[s.currpid].prio > Key(s.keys, s.lists[READYQ][i])
    ensures s.lists[READYQ][i] != s.currpid
  {
    assert s.lists[READYQ][i] in s.lists[READYQ];
  }

  function Turned(r: seq<int>, n: nat): (t: seq<int>)
    requires r != []
    ensures |t| == |r|
  {
    if n == 0 then r else Rotate(Turned(r, n - 1))
  }

  lemma {:induction false} TurnedRing(s: KState, r: seq<int>, n: nat)
    requires Steady(s) && IsRing(s, r)
    ensures Steady(ReschedN(s, n)) && IsRing(ReschedN(s, n), Turned(r, n))
  {
    hide CoreX, Resched;
    if n > 0 {
      TurnedRing(s, r, n - 1);
      RotateStep(ReschedN(s, n - 1), Turned(r, n - 1));
    }
  }

  lemma {:induction false} TurnedPart(r: seq<int>, n: nat)
    requires r != [] && n <= |r|
    ensures Turned(r, n) == r[n..] + r[..n]
  {
    if n > 0 {
      TurnedPart(r, n - 1);
    }
  }

  /** A full turn is no turn. */
  lemma {:induction false} TurnedWhole(r: seq<int>, n: nat)
    requires r != []
    ensures Turned(r, n + |r|) == Turned(r, n)
  {
    if n == 0 {
      TurnedPart(r, |r|);
    } else {
      TurnedWhole(r, n - 1);
    }
  }

  lemma {:induction false} TurnedFirst(r: seq<int>, n: nat)
    requires r != []
    ensures Turned(r, n)[0] == r[n % |r|]
    decreases n
  {
    if n < |r| {
      TurnedPart(r, n);
      ModUnique(n, |r|, 0, n);
    } else {
      TurnedWhole(r, n - |r|);
      TurnedFirst(r, n - |r|);
      ModMinus(n, |r|);
    }
  }

  lemma ModMinus(n: nat, k: nat)
    requires 0 < k <= n
    ensures (n - k) % k == n % k
  {
    ModUnique(n, k, (n - k) / k + 1, (n - k) % k);
  }

  lemma ModUnique(x: nat, k: nat, q: nat, r: nat)
    requires k > 0 && x == q * k + r && r < k
    ensures x % k == r
  {
    var d := q - x / k;
    assert d * k == x % k - r;
    MulApart(d, k);
  }

  lemma MulApart(d: int, k: int)
    requires k > 0
    ensures d >= 1 ==> d * k >= k
    ensures d <= -1 ==> d * k <= -k
  {
  }

  /** After n calls of `resched` alone, the CPU is with the n-th member of the ring, counted
      cyclically: the i-th tied ready process runs after exactly i calls. */
  lemma RoundRobin(s: KState, n: nat)
    requires Steady(s)
    ensures ReschedN(s, n).currpid == TiedRing(s)[n % |TiedRing(s)|]
  {
    TiedRingIsRing(s);
    TurnedRing(s, TiedRing(s), n);
    assert IsRing(ReschedN(s, n), Turned(TiedRing(s), n));
    TurnedFirst(TiedRing(s), n);
  }
}
