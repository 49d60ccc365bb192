/**
 The invariant of the kernel: process states and queues agree, semaphore counts equal
 queue lengths, the ready list is sorted, pending messages and continuations match, and
 every buffer pool holds a buffer for each wait it has granted.

 `CoreX(s, x)` is the scheduling part with process `x` in transit: it is on no queue and
 its state is not yet (or no longer) tied to one.
 */
module KernelInvariant {
  import opened KernelState

  /** The queue a process must be on, from its table entry alone. */
  function Home(pr: Proc): int {
    match pr.state
    case Ready => READYQ
    case Sleep => SLEEPQ
    case RecTim => SLEEPQ
    case Wait => if 0 <= pr.sem < NSEM then pr.sem else NLISTS
    case _ => -1
  }

  ghost predicate Placed(s: KState, x: int) {
    && (forall k {:trigger NoDup(s.lists[k])} :: 0 <= k < NLISTS ==> NoDup(s.lists[k]))
    && (forall k, q {:trigger q in s.lists[k]} :: 0 <= k < NLISTS && q in s.lists[k] ==>
          0 <= q < NPROC && q != x && Home(s.procs[q]) == k)
    && (forall q {:trigger Home(s.procs[q])} :: 0 <= q < NPROC && q != x && Home(s.procs[q]) != -1 ==>
          0 <= Home(s.procs[q]) < NLISTS && q in s.lists[Home(s.procs[q])])
  }

  /** Every listed process carries its priority as key. */
  ghost predicate Keyed(l: seq<int>, keys: seq<int>, procs: seq<Proc>)
    requires |keys| == |procs| == NPROC
  {
    forall q :: q in l && 0 <= q < NPROC ==> keys[q] == procs[q].prio
  }

  ghost predicate Descending(l: seq<int>, keys: seq<int>) {
    forall i, j :: 0 <= i < j < |l| ==> Key(keys, l[i]) >= Key(keys, l[j])
  }

  /** Ready processes carry their priority as key and stand in descending order. */
  ghost predicate ReadySorted(s: KState) {
    Keyed(s.lists[READYQ], s.keys, s.procs) && Descending(s.lists[READYQ], s.keys)
  }

  ghost predicate CoreX(s: KState, x: int) {
    && CurrInRange(s)
    && Placed(s, x)
    && ReadySorted(s)
    && (forall q {:trigger s.procs[q].state} :: 0 <= q < NPROC && q != s.currpid && q != x ==> !s.procs[q].state.Curr?)
    && (forall q {:trigger s.procs[q].prio} :: 0 <= q < NPROC ==> s.procs[q].prio >= 0)
    && (x != NULLPROC ==> s.procs[NULLPROC].state.Curr? || s.procs[NULLPROC].state.Ready?)
  }

  ghost predicate Core(s: KState) { CoreX(s, -1) }

  /** The running process is current and, unless a reschedule was deferred, outranks every ready process. */
  ghost predicate Running(s: KState) {
    && CurrInRange(s)
    && s.procs[s.currpid].state.Curr?
    && s.ndefers >= 0
    && (s.ndefers == 0 || !s.attempt ==>
          forall q :: q in s.lists[READYQ] && 0 <= q < NPROC ==> s.procs[s.currpid].prio >= s.procs[q].prio)
  }

  // ---- list facts ------------------------------------------------------------------

  lemma InsertAtElem(l: seq<int>, i: nat, p: int, j: nat)
    requires i <= |l| && j <= |l|
    ensures |InsertAt(l, i, p)| == |l| + 1
    ensures InsertAt(l, i, p)[j] == if j == i then p else l[if j < i then j else j - 1]
  {
  }

  lemma InsertAtFacts(l: seq<int>, i: nat, p: int)
    requires i <= |l| && NoDup(l) && p !in l
    ensures NoDup(InsertAt(l, i, p))
    ensures forall q :: q in InsertAt(l, i, p) <==> q in l || q == p
  {
    var r := InsertAt(l, i, p);
    assert forall j :: 0 <= j < i ==> r[j] == l[j];
    assert r[i] == p;
    assert forall j :: i < j < |r| ==> r[j] == l[j - 1];
    forall q | q in l
      ensures q in r
    {
      var j :| 0 <= j < |l| && l[j] == q;
      assert q == r[if j < i then j else j + 1];
    }
  }

  /** The insertion point is the only place between keys at least as large and a smaller one. */
  lemma {:induction false} KeyPosUnique(l: seq<int>, keys: seq<int>, key: int, i: nat)
    requires i <= |l| && (forall j :: 0 <= j < i ==> Key(keys, l[j]) >= key) && (i < |l| ==> Key(keys, l[i]) < key)
    ensures KeyPos(l, keys, key) == i
  {
    if i > 0 {
      assert forall j :: 0 <= j < i - 1 ==> l[1..][j] == l[j + 1];
      KeyPosUnique(l[1..], keys, key, i - 1);
    }
  }

  lemma RemoveAtElem(l: seq<int>, i: nat, j: nat)
    requires i < |l| && j < |l| - 1
    ensures RemoveAt(l, i)[j] == l[if j < i then j else j + 1]
  {
  }

  lemma RemoveAtNoDup(l: seq<int>, i: nat)
    requires NoDup(l) && i < |l|
    ensures NoDup(RemoveAt(l, i)) && l[i] !in RemoveAt(l, i)
  {
    var r := RemoveAt(l, i);
    forall j | 0 <= j < |r|
      ensures r[j] == l[if j < i then j else j + 1]
    {
      RemoveAtElem(l, i, j);
    }
  }

  lemma RemoveFacts(l: seq<int>, p: int)
    requires NoDup(l)
    ensures NoDup(Remove(l, p))
    ensures forall q :: q in Remove(l, p) <==> q in l && q != p
  {
    if p in l {
      var i := IndexOf(l, p);
      RemoveAtNoDup(l, i);
      forall q | q in l && q != p
        ensures q in RemoveAt(l, i)
      {
        var j :| 0 <= j < |l| && l[j] == q;
        RemoveAtElem(l, i, if j < i then j else j - 1);
      }
    }
  }

  lemma RemoveFirst(l: seq<int>)
    requires l != []
    ensures Remove(l, l[0]) == l[1..]
  {
  }

  // ---- moving one process ----------------------------------------------------------

  /** A process on no queue may be taken in transit. */
  lemma Lift(s: KState, p: int)
    requires Core(s) && 0 <= p < NPROC && Home(s.procs[p]) == -1
    ensures CoreX(s, p)
  {
  }

  lemma AtHome(s: KState, p: int)
    requires Core(s) && 0 <= p < NPROC
    ensures Home(s.procs[p]) != -1 ==> 0 <= Home(s.procs[p]) < NLISTS && p in s.lists[Home(s.procs[p])]
    ensures s.procs[p].state.Wait? ==> 0 <= s.procs[p].sem < NSEM && p in s.lists[s.procs[p].sem]
  {
    var k := Home(s.procs[p]);
  }

  /** Unlinking a process from its queue puts it in transit. */
  lemma UnlinkCore(s: KState, p: int)
    requires Core(s) && 0 <= p < NPROC && Home(s.procs[p]) != -1
    ensures CoreX(Unlink(s, p, Home(s.procs[p])), p)
  {
    var k := Home(s.procs[p]);
    var l := s.lists[k];
    RemoveFacts(l, p);
    if k == READYQ {
      var i := IndexOf(l, p);
      forall j | 0 <= j < |l| - 1
        ensures Remove(l, p)[j] == l[if j < i then j else j + 1]
      {
        RemoveAtElem(l, i, j);
      }
    }
  }

  /** The scheduling invariant reads only the keys of ready processes. */
  lemma SameReadyKeys(s: KState, t: KState, x: int)
    requires CoreX(s, x) && t == s.(keys := t.keys)
    requires forall q :: 0 <= q < NPROC && s.procs[q].state.Ready? && q != x ==> t.keys[q] == s.keys[q]
    ensures CoreX(t, x)
  {
    var l := s.lists[READYQ];
    forall i | 0 <= i < |l|
      ensures Key(t.keys, l[i]) == Key(s.keys, l[i])
    {
      assert l[i] in l;
    }
  }

  lemma UnsleepCore(s: KState, p: int)
    requires Core(s) && 0 <= p < NPROC && Home(s.procs[p]) == SLEEPQ
    ensures CoreX(Unsleep(s, p), p)
  {
    UnlinkCore(s, p);
    var l := s.lists[SLEEPQ];
    var i := IndexOf(l, p);
    if i + 1 < |l| { assert l[i + 1] in l; }
    SameReadyKeys(Unlink(s, p, SLEEPQ), Unsleep(s, p), p);
  }

  /** A process in transit may come to rest in a state that needs no queue. */
  lemma Settle(s: KState, p: int)
    requires CoreX(s, p) && 0 < p < NPROC && Home(s.procs[p]) == -1
    requires s.procs[p].state.Curr? ==> p == s.currpid
    ensures Core(s)
  {
  }

  /** Inserting where `insert` does keeps a list in descending key order. */
  lemma InsertSorted(l: seq<int>, keys: seq<int>, p: int, key: int)
    requires 0 <= p < |keys| && p !in l && Descending(l, keys)
    ensures Descending(InsertAt(l, KeyPos(l, keys, key), p), keys[p := key])
  {
    var n := KeyPos(l, keys, key);
    var r := InsertAt(l, n, p);
    var keys' := keys[p := key];
    hide KeyPos, InsertAt;
    forall i, j | 0 <= i < j < |r|
      ensures Key(keys', r[i]) >= Key(keys', r[j])
    {
      InsertAtElem(l, n, p, i);
      InsertAtElem(l, n, p, j);
      if i == n && n < j - 1 { assert Key(keys, l[n]) >= Key(keys, l[j - 1]); }
    }
  }

  lemma MakeReadyPlaced(s: KState, p: int)
    requires Placed(s, p) && 0 <= p < NPROC
    ensures Placed(MakeReady(s, p), -1)
  {
    var l := s.lists[READYQ];
    var i := KeyPos(l, s.keys, s.procs[p].prio);
    if p in l { assert false; }
    InsertAtFacts(l, i, p);
  }

  lemma InsertKeyed(l: seq<int>, keys: seq<int>, procs: seq<Proc>, i: nat, p: int, pr: Proc)
    requires |keys| == |procs| == NPROC && Keyed(l, keys, procs) && NoDup(l) && p !in l && i <= |l| && 0 <= p < NPROC
    ensures Keyed(InsertAt(l, i, p), keys[p := pr.prio], procs[p := pr])
  {
    InsertAtFacts(l, i, p);
    hide InsertAt, NoDup;
  }

  lemma MakeReadySorted(s: KState, p: int)
    requires ReadySorted(s) && 0 <= p < NPROC && p !in s.lists[READYQ] && NoDup(s.lists[READYQ])
    ensures ReadySorted(MakeReady(s, p))
  {
    var l := s.lists[READYQ];
    var i := KeyPos(l, s.keys, s.procs[p].prio);
    hide KeyPos, NoDup, Keyed, Descending;
    InsertKeyed(l, s.keys, s.procs, i, p, s.procs[p].(state := Ready));
    InsertSorted(l, s.keys, p, s.procs[p].prio);
  }

  lemma MakeReadyCore(s: KState, p: int)
    requires CoreX(s, p) && 0 <= p < NPROC
    ensures Core(MakeReady(s, p))
  {
    MakeReadyPlaced(s, p);
    if p in s.lists[READYQ] { assert false; }
    assert NoDup(s.lists[READYQ]);
    MakeReadySorted(s, p);
  }

  /** A process in transit may be linked anywhere into its queue, other than the ready list. */
  lemma PutCore(s: KState, p: int, k: int, i: nat)
    requires CoreX(s, p) && 0 < p < NPROC && 0 <= k < NLISTS && k != READYQ && i <= |s.lists[k]|
    requires Home(s.procs[p]) == k
    ensures Core(SetList(s, k, InsertAt(s.lists[k], i, p)))
  {
    if p in s.lists[k] { assert false; }
    InsertAtFacts(s.lists[k], i, p);
  }

  lemma EnqueueCore(s: KState, p: int, k: int)
    requires CoreX(s, p) && 0 < p < NPROC && 0 <= k < NSEM
    requires s.procs[p].state.Wait? && s.procs[p].sem == k
    ensures Core(Enqueue(s, p, k))
  {
    PutCore(s, p, k, |s.lists[k]|);
    assert InsertAt(s.lists[k], |s.lists[k]|, p) == s.lists[k] + [p];
  }

  /** In transit the table entry may change freely, except for its priority. */
  lemma TransitProc(s: KState, p: int, pr: Proc)
    requires CoreX(s, p) && 0 <= p < NPROC && pr.prio == s.procs[p].prio
    ensures CoreX(SetProc(s, p, pr), p)
  {
  }

  lemma InsertDKeys(s: KState, p: int, key: int)
    requires CoreX(s, p) && 0 <= p < NPROC
    ensures var l, t := s.lists[SLEEPQ], InsertD(s, p, key);
            t == SetList(s, SLEEPQ, InsertAt(l, DeltaPos(l, s.keys, key).0, p)).(keys := t.keys)
    ensures forall q :: 0 <= q < NPROC && s.procs[q].state.Ready? && q != p ==> InsertD(s, p, key).keys[q] == s.keys[q]
  {
    var l := s.lists[SLEEPQ];
    var i := DeltaPos(l, s.keys, key).0;
    if i < |l| { assert l[i] in l; }
  }

  lemma InsertDCore(s: KState, p: int, key: int, st: PrState)
    requires CoreX(s, p) && 0 < p < NPROC && (st.Sleep? || st.RecTim?)
    ensures Core(SetState(InsertD(s, p, key), p, st))
  {
    var l := s.lists[SLEEPQ];
    var i := DeltaPos(l, s.keys, key).0;
    InsertDKeys(s, p, key);
    var s0 := SetState(s, p, st);
    TransitProc(s, p, s.procs[p].(state := st));
    PutCore(s0, p, SLEEPQ, i);
    SameReadyKeys(SetList(s0, SLEEPQ, InsertAt(l, i, p)), SetState(InsertD(s, p, key), p, st), -1);
  }

  lemma ReleaseFirstCore(s: KState, k: int)
    requires Core(s) && 0 <= k < NLISTS && k != READYQ && s.lists[k] != []
    ensures Core(ReleaseFirst(s, k))
    ensures 0 <= s.lists[k][0] < NPROC
  {
    var p := s.lists[k][0];
    assert p in s.lists[k];
    UnlinkCore(s, p);
    RemoveFirst(s.lists[k]);
    MakeReadyCore(Unlink(s, p, k), p);
  }

  // ---- resched ---------------------------------------------------------------------

  lemma DispatchPlaced(s: KState)
    requires Placed(s, -1) && s.lists[READYQ] != []
    ensures Placed(Dispatch(s), -1)
  {
    var l := s.lists[READYQ];
    assert NoDup(l) && l[0] in l;
    RemoveFacts(l, l[0]);
    RemoveFirst(l);
    var t := Dispatch(s);
    forall q | 0 <= q < NPROC && Home(t.procs[q]) != -1
      ensures 0 <= Home(t.procs[q]) < NLISTS && q in t.lists[Home(t.procs[q])]
    {
      assert q != l[0] ==> Home(s.procs[q]) == Home(t.procs[q]);
    }
  }

  /** The first ready process outranks the others. */
  lemma FirstIsTop(s: KState, q: int)
    requires Placed(s, -1) && ReadySorted(s) && q in s.lists[READYQ]
    ensures var l := s.lists[READYQ];
            0 <= q < NPROC && 0 <= l[0] < NPROC && s.procs[l[0]].prio >= s.procs[q].prio
              && FirstReadyKey(s) == s.procs[l[0]].prio
  {
    var l := s.lists[READYQ];
    assert l[0] in l;
    var j :| 0 <= j < |l| && l[j] == q;
    if j > 0 { assert Key(s.keys, l[0]) >= Key(s.keys, l[j]); }
  }

  lemma DispatchCore(s: KState)
    requires Core(s) && !s.procs[s.currpid].state.Curr? && s.ndefers == 0
    ensures s.lists[READYQ] != []
    ensures Core(Dispatch(s)) && Running(Dispatch(s))
  {
    var l := s.lists[READYQ];
    assert Home(s.procs[NULLPROC]) == READYQ;
    assert l[0] in l;
    DispatchPlaced(s);
    forall q | q in l[1..] && 0 <= q < NPROC
      ensures s.procs[l[0]].prio >= s.procs[q].prio
    {
      FirstIsTop(s, q);
    }
    DispatchSorted(s);
  }

  lemma DispatchSorted(s: KState)
    requires Placed(s, -1) && ReadySorted(s) && s.lists[READYQ] != []
    ensures ReadySorted(Dispatch(s))
  {
    var l := s.lists[READYQ];
    assert l[0] in l;
    assert forall j :: 0 <= j < |l| - 1 ==> l[1..][j] == l[j + 1];
  }

  /** `resched` restores the running invariant and never dequeues from an empty ready list. */
  lemma ReschedCore(s: KState)
    requires Core(s) && s.ndefers >= 0
    requires s.ndefers > 0 ==> s.procs[s.currpid].state.Curr?
    ensures Core(Resched(s)) && Running(Resched(s))
  {
    if s.ndefers == 0 {
      var cur := s.currpid;
      if s.procs[cur].state.Curr? {
        if s.procs[cur].prio > FirstReadyKey(s) {
          forall q | q in s.lists[READYQ] && 0 <= q < NPROC
            ensures s.procs[cur].prio >= s.procs[q].prio
          {
            FirstIsTop(s, q);
          }
        } else {
          Lift(s, cur);
          MakeReadyCore(s, cur);
          DispatchCore(MakeReady(s, cur));
        }
      } else {
        DispatchCore(s);
      }
    }
  }

  /** Two table entries that differ at most by running versus being ready to run. */
  predicate SameButRunning(a: Proc, b: Proc) {
    || a == b
    || (&& (a.state.Curr? || a.state.Ready?) && (b.state.Curr? || b.state.Ready?)
        && b == a.(state := b.state))
  }

  /** What `resched` leaves alone. */
  lemma ReschedFrame(s: KState)
    requires Core(s) && s.ndefers >= 0
    requires s.ndefers > 0 ==> s.procs[s.currpid].state.Curr?
    ensures var t := Resched(s);
            && t.sems == s.sems && t.conts == s.conts && t.pools == s.pools && t.ndefers == s.ndefers
            && (forall k :: 0 <= k < NLISTS && k != READYQ ==> t.lists[k] == s.lists[k])
            && (forall q :: 0 <= q < NPROC ==> SameButRunning(s.procs[q], t.procs[q]))
            && (forall q :: 0 <= q < NPROC && q != s.currpid ==> t.keys[q] == s.keys[q])
            && (!s.procs[s.currpid].state.Curr? ==> t.keys == s.keys)
            && (s.ndefers > 0 ==> t.currpid == s.currpid && t.procs == s.procs && t.lists == s.lists)
  {
    hide Placed, ReadySorted, InsertAt, KeyPos;
    if s.ndefers == 0 {
      var cur := s.currpid;
      if s.procs[cur].state.Curr? {
        if s.procs[cur].prio <= FirstReadyKey(s) {
          Lift(s, cur);
          MakeReadyCore(s, cur);
          FirstIsReady(MakeReady(s, cur));
        }
      } else {
        FirstIsReady(s);
      }
    }
  }

  lemma FirstIsReady(s: KState)
    requires Core(s) && !s.procs[s.currpid].state.Curr? && s.ndefers == 0
    ensures var l := s.lists[READYQ]; l != [] && 0 <= l[0] < NPROC && s.procs[l[0]].state.Ready?
  {
    DispatchCore(s);
    assert s.lists[READYQ][0] in s.lists[READYQ];
  }
}
