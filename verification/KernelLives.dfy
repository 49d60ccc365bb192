/**
 The life of a process and of a semaphore: what `create`, `kill`, `suspend`, `resume`, `semreset`
 and `semdelete` do, and what stays the same in between, over single steps and whole runs.
 */
module KernelLives {
  import opened KernelState
  import opened KernelInvariant
  import opened KernelSteps
  import opened KernelSafety
  import opened KernelRuns
  import opened KernelMessages
  import opened KernelOrder
  import opened KernelTables

  ghost predicate OnNoQueue(s: KState, p: int) { forall k :: 0 <= k < NLISTS ==> p !in s.lists[k] }

  // ---- death -----------------------------------------------------------------------

  lemma FreeOffQueues(s: KState, p: int)
    requires Inv(s) && 0 <= p < NPROC && s.procs[p].state.Free?
    ensures OnNoQueue(s, p)
  {
    hide Running, Rest;
  }

  /** When `kill` completes, its victim's entry is free, nothing of it is pending and it is on no
      queue; nobody else's entry changes, other than between running and ready. */
  lemma KillFrees(s: KState, p: int)
    requires Inv(s) && Enabled(s, Finish) && s.conts[s.currpid] == InKill(p)
    ensures var t := Step(s, Finish);
            && 0 <= p < NPROC && t.procs[p] == s.procs[p].(state := Free) && t.conts[p].NoCont? && OnNoQueue(t, p)
            && (forall q :: 0 <= q < NPROC && q != p ==> SameButRunning(s.procs[q], t.procs[q]))
            && (forall q :: 0 <= q < NPROC && q != p && q != s.currpid ==> t.conts[q] == s.conts[q])
  {
    Fits(s, s.currpid);
    StepInv(s, Finish);
    InvRuns(s);
    InvRuns(Step(s, Finish));
    hide Inv, Enabled, Step;
    forall q | 0 <= q < NPROC
      ensures var t := Step(s, Finish);
              if q == p then t.procs[q] == s.procs[q].(state := Free) && t.conts[q].NoCont?
              else SameButRunning(s.procs[q], t.procs[q]) && (q != s.currpid ==> t.conts[q] == s.conts[q])
    {
      EntryStep(s, Finish, q);
      ContStep(s, Finish, q);
      KillEntry(s, q);
      hide Entry, ContAfter;
    }
    FreeOffQueues(Step(s, Finish), p);
  }

  // ---- population ------------------------------------------------------------------

  /** A free entry is neither released nor running. */
  lemma FreeQuiet(s: KState, op: Op, q: int)
    requires Inv(s) && 0 <= q < NPROC && s.procs[q].state.Free?
    ensures forall k :: 0 <= k < NSEM ==> q !in Released(s, op, k)
    ensures q !in s.lists[SLEEPQ] && q != s.currpid
  {
    InvAgrees(s, q);
    hide Inv, Signals, Target;
  }

  lemma EntryAlive(s: KState, op: Op, q: int)
    requires Inv(s) && CurrInRange(s) && 0 <= q < NPROC
    ensures !Entry(s, op, q).state.Free? <==> Starts(s, op, q) || (Alive(s, q) && Victim(s, op) != q)
  {
    InvRuns(s);
    if s.procs[q].state.Free? { FreeQuiet(s, op, q); }
    hide Inv, Step, Round, Released;
  }

  /** Who is alive after a step: whoever was, and a process it starts, without the one it kills. */
  lemma AliveStep(s: KState, op: Op, q: int)
    requires Inv(s) && Enabled(s, op) && 0 <= q < NPROC
    ensures Alive(Step(s, op), q) <==> Starts(s, op, q) || (Alive(s, q) && Victim(s, op) != q)
  {
    hide Inv, Step, Starts, Entry;
    InvRuns(s);
    EntryStep(s, op, q);
    EntryAlive(s, op, q);
  }

  ghost function Population(s: KState): set<int> { set p | 0 <= p < NPROC && Alive(s, p) }

  ghost predicate Born(s: KState, op: Op) { exists q :: Starts(s, op, q) }

  predicate Dies(s: KState, op: Op)
    requires CurrInRange(s)
  {
    Alive(s, Victim(s, op))
  }

  lemma OneStarts(s: KState, op: Op, p: int, q: int)
    requires Starts(s, op, p) && Starts(s, op, q)
    ensures p == q
  {
    hide Round;
    SlotRound(s.nextpid, p);
    SlotRound(s.nextpid, q);
  }

  lemma PopulationChange(s: KState, op: Op, q: int)
    requires Inv(s) && Enabled(s, op)
    ensures q in Population(Step(s, op)) <==>
              Starts(s, op, q) || (q in Population(s) && Victim(s, op) != q)
  {
    InvRuns(s);
    if Starts(s, op, q) { StartsFree(s, op, q); }
    if 0 <= q < NPROC { AliveStep(s, op, q); }
    hide Inv, Enabled, Step, Starts, Victim;
  }

  lemma PopulationStep(s: KState, op: Op)
    requires Inv(s) && Enabled(s, op)
    ensures |Population(Step(s, op))| ==
              |Population(s)| + (if Born(s, op) then 1 else 0) - if Dies(s, op) then 1 else 0
  {
    InvRuns(s);
    var v := Victim(s, op);
    hide Inv, Enabled, Step, Starts, Alive, Population, Victim;
    var a, b := Population(s), Population(Step(s, op));
    if Born(s, op) {
      var p :| Starts(s, op, p);
      StartsFree(s, op, p);
      forall q
        ensures q in b <==> q in a + {p}
      {
        PopulationChange(s, op, q);
        InPopulation(s, q);
        if Starts(s, op, q) { OneStarts(s, op, p, q); }
      }
      InPopulation(s, p);
      assert b == a + {p};
    } else {
      forall q
        ensures q in b <==> q in a - {v}
      {
        PopulationChange(s, op, q);
      }
      InPopulation(s, v);
      assert b == a - {v};
    }
  }

  lemma InPopulation(s: KState, p: int)
    ensures p in Population(s) <==> Alive(s, p)
    ensures Alive(s, p) ==> 0 <= p
  {
  }

  lemma StartsFree(s: KState, op: Op, p: int)
    requires CurrInRange(s) && Starts(s, op, p)
    ensures 0 <= p < NPROC && !Alive(s, p) && Victim(s, op) == -1 && !Dies(s, op)
  {
  }

  ghost function Births(s: KState, ops: seq<Op>): nat
    requires Legal(s, ops)
    decreases |ops|
  {
    if ops == [] then 0 else (if Born(s, ops[0]) then 1 else 0) + Births(Step(s, ops[0]), ops[1..])
  }

  ghost function Deaths(s: KState, ops: seq<Op>): nat
    requires Legal(s, ops)
    decreases |ops|
  {
    if ops == [] then 0 else (if Dies(s, ops[0]) then 1 else 0) + Deaths(Step(s, ops[0]), ops[1..])
  }

  /** Over any run: the entries in use are those at the start plus those created less those killed. */
  lemma {:induction false} PopulationRun(s: KState, ops: seq<Op>)
    requires Inv(s) && Legal(s, ops)
    ensures |Population(Exec(s, ops))| + Deaths(s, ops) == |Population(s)| + Births(s, ops)
    decreases |ops|
  {
    hide Inv, Step, Enabled, Population, Born, Dies;
    if ops != [] {
      InvRuns(s);
      PopulationStep(s, ops[0]);
      StepInv(s, ops[0]);
      PopulationRun(Step(s, ops[0]), ops[1..]);
    }
  }

  // ---- suspension ------------------------------------------------------------------

  /** A ready or running process other than the null process is suspended after `suspend`. */
  lemma SuspendStops(s: KState, p: int)
    requires Inv(s) && Enabled(s, Suspend(p)) && 0 < p < NPROC
    requires s.procs[p].state.Ready? || s.procs[p].state.Curr?
    ensures var t := Step(s, Suspend(p)); t.procs[p] == s.procs[p].(state := Susp) && OnNoQueue(t, p)
  {
    EntryStep(s, Suspend(p), p);
    StepInv(s, Suspend(p));
    hide Enabled, Step, Running, Rest;
  }

  /** Nobody resumes, kills or replaces `p` during the run. */
  ghost predicate LeftAlone(s: KState, ops: seq<Op>, p: int)
    requires Legal(s, ops)
    decreases |ops|
  {
    ops == [] || (ops[0] != Resume(p) && Victim(s, ops[0]) != p && LeftAlone(Step(s, ops[0]), ops[1..], p))
  }

  lemma SuspendedStep(s: KState, op: Op, p: int)
    requires Inv(s) && Enabled(s, op) && 0 <= p < NPROC && s.procs[p].state.Susp?
    requires op != Resume(p) && Victim(s, op) != p
    ensures Step(s, op).procs[p].state.Susp?
  {
    InvAgrees(s, p);
    EntryStep(s, op, p);
    NotReleased(s, op, p);
    hide Inv, Enabled, Step, FirstPid, Arrived, Released;
  }

  lemma NotReleased(s: KState, op: Op, p: int)
    requires Inv(s) && 0 <= p < NPROC && s.procs[p].state.Susp?
    ensures forall k :: 0 <= k < NSEM ==> p !in Released(s, op, k)
    ensures p !in s.lists[SLEEPQ]
  {
    InvAgrees(s, p);
    hide Inv, Signals, Target;
  }

  /** A suspended process stays suspended, off every queue and off the CPU, until somebody
      resumes or kills it. */
  lemma {:induction false} SuspendedStays(s: KState, ops: seq<Op>, p: int)
    requires Inv(s) && Legal(s, ops) && 0 <= p < NPROC && s.procs[p].state.Susp? && LeftAlone(s, ops, p)
    ensures var t := Exec(s, ops); t.procs[p].state.Susp? && t.currpid != p && OnNoQueue(t, p)
    decreases |ops|
  {
    if ops == [] {
      hide Running, Rest;
      InvAgrees(s, p);
    } else {
      hide Inv, Step, Enabled, OnNoQueue;
      InvRuns(s);
      SuspendedStep(s, ops[0], p);
      StepInv(s, ops[0]);
      SuspendedStays(Step(s, ops[0]), ops[1..], p);
    }
  }

  // ---- identity --------------------------------------------------------------------

  /** Priority and parent are set by `create` and by nothing else. */
  lemma IdentityStep(s: KState, op: Op, p: int)
    requires Inv(s) && Enabled(s, op) && 0 <= p < NPROC
    ensures var pr, t := s.procs[p], Step(s, op).procs[p];
            if Starts(s, op, p) then t == Proc(Susp, op.prio, -1, s.currpid, false, pr.msg)
            else t.prio == pr.prio && t.parent == pr.parent
  {
    InvRuns(s);
    EntryStep(s, op, p);
    hide Inv, Enabled, Step, FirstPid, Arrived, Released;
  }

  ghost predicate NeverStarts(s: KState, ops: seq<Op>, p: int)
    requires Legal(s, ops)
    decreases |ops|
  {
    ops == [] || (!Starts(s, ops[0], p) && NeverStarts(Step(s, ops[0]), ops[1..], p))
  }

  lemma {:induction false} IdentityRun(s: KState, ops: seq<Op>, p: int)
    requires Inv(s) && Legal(s, ops) && 0 <= p < NPROC && NeverStarts(s, ops, p)
    ensures Exec(s, ops).procs[p].prio == s.procs[p].prio && Exec(s, ops).procs[p].parent == s.procs[p].parent
    ensures NeverCreated(s, ops, p)
    decreases |ops|
  {
    hide Inv, Step, Enabled, Starts;
    if ops != [] {
      InvRuns(s);
      IdentityStep(s, ops[0], p);
      StartsCreates(s, ops[0], p);
      StepInv(s, ops[0]);
      IdentityRun(Step(s, ops[0]), ops[1..], p);
    }
  }

  lemma StartsCreates(s: KState, op: Op, p: int)
    requires 0 <= p
    ensures Starts(s, op, p) <==> Creates(s, op, p)
  {
    FirstPidFound(s, p);
    hide FirstPid, FindPid;
  }

  /** A new process, also one in an entry used before: for as long as its entry is not given away
      again it has the priority asked for and its creator as parent, and the messages it received,
      followed by the one in its box, are exactly those accepted for it since it was created. */
  lemma NewProcess(s: KState, op: Op, ops: seq<Op>, p: int)
    requires Inv(s) && Enabled(s, op) && 0 <= p < NPROC && Starts(s, op, p)
    requires Legal(Step(s, op), ops) && NeverStarts(Step(s, op), ops, p)
    ensures var t := Step(s, op); var u := Exec(t, ops);
            && t.procs[p].state.Susp? && !Alive(s, p)
            && u.procs[p].prio == op.prio && u.procs[p].parent == s.currpid
            && AllGot(t, ops, p) + Box(u, p) == AllSent(t, ops, p)
  {
    hide Inv, Step, Enabled, FirstPid;
    InvRuns(s);
    StartsFree(s, op, p);
    IdentityStep(s, op, p);
    StepInv(s, op);
    var t := Step(s, op);
    IdentityRun(t, ops, p);
    Delivery(t, ops, p);
    assert Box(t, p) == [];
  }

  // ---- the null process ------------------------------------------------------------

  /** The null process alone has priority 0. */
  ghost predicate Priorities(s: KState) {
    s.procs[NULLPROC].prio == 0 && forall p :: 0 < p < NPROC && Alive(s, p) ==> s.procs[p].prio >= 1
  }

  lemma {:induction false} PrioritiesRun(s: KState, ops: seq<Op>)
    requires Inv(s) && Legal(s, ops) && Priorities(s)
    ensures Priorities(Exec(s, ops))
    decreases |ops|
  {
    hide Inv, Step, Enabled, Starts;
    if ops != [] {
      InvRuns(s);
      var t := Step(s, ops[0]);
      forall p | 0 <= p < NPROC
        ensures p == NULLPROC ==> t.procs[p].prio == 0
        ensures 0 < p && Alive(t, p) ==> t.procs[p].prio >= 1
      {
        IdentityStep(s, ops[0], p);
        AliveStep(s, ops[0], p);
        if Starts(s, ops[0], p) { StartsWhom(s, ops[0], p); }
      }
      StepInv(s, ops[0]);
      PrioritiesRun(t, ops[1..]);
    }
  }

  lemma StartsWhom(s: KState, op: Op, p: int)
    requires Inv(s) && Starts(s, op, p)
    ensures p != NULLPROC && op.Create? && op.prio >= 1
  {
  }

  /** From boot: the null process runs only when no other process is ready, unless a reschedule
      is being deferred. */
  lemma IdleOnly(ops: seq<Op>)
    requires Legal(Boot(), ops)
    ensures var s := Exec(Boot(), ops);
            s.currpid == NULLPROC && (s.ndefers == 0 || !s.attempt) ==> s.lists[READYQ] == []
  {
    BootInv();
    ReachableInv(ops);
    PrioritiesRun(Boot(), ops);
    var s := Exec(Boot(), ops);
    hide Exec, Boot, Rest;
    if s.lists[READYQ] != [] { assert s.lists[READYQ][0] in s.lists[READYQ]; }
  }

  // ---- semaphores ------------------------------------------------------------------

  /** A step that gives semaphore `k` the count `n`. */
  predicate SetsCount(s: KState, op: Op, k: int, n: int) {
    || (op == Semreset(k, n) && InUse(s, k) && n >= 0)
    || (op == Semcreate(n) && FirstSem(s, k) && n >= 0)
  }

  /** A reset or new semaphore has the count asked for, an empty queue, and nobody else's entry changed. */
  lemma SetsCountStep(s: KState, op: Op, k: int, n: int)
    requires Inv(s) && Enabled(s, op) && SetsCount(s, op, k, n)
    ensures 0 <= k < NSEM
    ensures var t := Step(s, op); t.sems == s.sems[k := Sem(true, n)] && t.lists[k] == []
  {
    hide Enabled, Step, Core, Running;
    StepInv(s, op);
    InvRuns(s);
    forall j | 0 <= j < NSEM
      ensures Step(s, op).sems[j] == if j == k then Sem(true, n) else s.sems[j]
    {
      SemStep(s, op, j);
      if op.Semcreate? && FirstSem(s, j) { OneSem(s, k, j); }
      hide FirstSem;
    }
  }

  lemma OneSem(s: KState, j: int, k: int)
    requires FirstSem(s, j) && FirstSem(s, k)
    ensures j == k
  {
    hide Round;
    SlotRound(s.nextsem, j);
    SlotRound(s.nextsem, k);
  }

  /** Since a semaphore got its count: waits let through and what is left of the count are that
      count and the signals since. */
  lemma CountSince(s: KState, op: Op, ops: seq<Op>, k: int, n: int)
    requires Inv(s) && Enabled(s, op) && SetsCount(s, op, k, n) && Legal(Step(s, op), ops)
    requires forall i :: 0 <= i < |ops| ==> !Resets(Step(s, op), ops[i], k)
    ensures 0 <= k < NSEM && CurrInRange(Step(s, op))
    ensures var t := Step(s, op); AllPasses(t, ops, k) + Pos(Exec(t, ops).sems[k].count) == n + AllSignals(t, ops, k)
  {
    hide Inv, Enabled, Step, SetsCount;
    InvRuns(s);
    SetsCountStep(s, op, k, n);
    StepInv(s, op);
    InvRuns(Step(s, op));
    SemaphoreConservation(Step(s, op), ops, k);
    SetsNat(s, op, k, n);
  }

  lemma SetsNat(s: KState, op: Op, k: int, n: int)
    requires SetsCount(s, op, k, n)
    ensures n >= 0
  {
  }

  /** A deleted semaphore is free, its waiters are gone from the queue, and the others are unchanged. */
  lemma DeleteFrees(s: KState, k: int)
    requires Inv(s) && Enabled(s, Semdelete(k)) && InUse(s, k)
    ensures var t := Step(s, Semdelete(k));
            !t.sems[k].used && t.lists[k] == [] && forall j :: 0 <= j < NSEM && j != k ==> t.sems[j] == s.sems[j]
  {
    forall j | 0 <= j < NSEM
      ensures j == k ==> !Step(s, Semdelete(k)).sems[j].used
      ensures j != k ==> Step(s, Semdelete(k)).sems[j] == s.sems[j]
    {
      SemStep(s, Semdelete(k), j);
    }
    SemStep(s, Semdelete(k), k);
    hide Inv, Enabled, Step;
  }
}
