/**
 UDP address and port translation: the table of 40 entries as packets pass in both
 directions, the port generator, and what holds over whole packet histories.
 */
module Nat {

  const WORD := 0x1_0000_0000
  const NATUDPSIZ := 40
  const NAT_TIMEOUT := 300
  const FIRSTPORT := 40000
  const LASTPORT := 50000
  const PORTS := 65536

  datatype Entry = Entry(used: bool, iface: int, destip: int, destpt: int, pubip: int, pubpt: int,
    privip: int, privpt: int, time: int)

  datatype Packet = Packet(iface: int, ipsrc: int, ipdst: int, sport: int, dport: int, cksum: int)

  datatype Direction = Inbound | Outbound

  /** A packet is handed to the local stack, sent on rewritten, or the table overflows. */
  datatype Outcome = Local(pkt: Packet) | Sent(pkt: Packet) | Panic

  datatype State = State(table: seq<Entry>, port: int, pubip: int)

  predicate Matches(d: Direction, e: Entry, p: Packet) {
    match d
    case Inbound => p.ipsrc == e.destip && p.ipdst == e.pubip && p.sport == e.destpt && p.dport == e.pubpt
    case Outbound => p.ipsrc == e.privip && p.ipdst == e.destip && p.sport == e.privpt && p.dport == e.destpt
  }

  predicate Hit(d: Direction, e: Entry, p: Packet) { e.used && Matches(d, e, p) }

  /** 32-bit subtraction of time stamps. */
  predicate Expired(e: Entry, now: int) { (now - e.time) % WORD > NAT_TIMEOUT }

  // ---- the table scan --------------------------------------------------------------

  function Find(t: seq<Entry>, d: Direction, p: Packet): (k: nat)
    ensures k <= |t| && (forall j :: 0 <= j < k ==> !Hit(d, t[j], p)) && (k < |t| ==> Hit(d, t[k], p))
  {
    if t == [] || Hit(d, t[0], p) then 0
    else
      var k := Find(t[1..], d, p);
      assert forall j :: 0 < j < k + 1 ==> t[j] == t[1..][j - 1];
      k + 1
  }

  function Aged(e: Entry, now: int): Entry { if e.used && Expired(e, now) then e.(used := false) else e }

  /** The first `k` slots with expired entries dropped. */
  function Sweep(t: seq<Entry>, k: nat, now: int): seq<Entry> {
    seq(|t|, j requires 0 <= j < |t| => if j < k then Aged(t[j], now) else t[j])
  }

  /** The scan stops at a match, whose entry is refreshed even when it had expired. */
  function Scan(t: seq<Entry>, d: Direction, p: Packet, now: int): seq<Entry> {
    var k := Find(t, d, p);
    if k < |t| then Sweep(t, k, now)[k := t[k].(time := now)] else Sweep(t, k, now)
  }

  function FreeSlot(t: seq<Entry>): (k: nat)
    ensures k <= |t| && (forall j :: 0 <= j < k ==> t[j].used) && (k < |t| ==> !t[k].used)
  {
    if t == [] || !t[0].used then 0
    else
      var k := FreeSlot(t[1..]);
      assert forall j :: 0 < j < k + 1 ==> t[j] == t[1..][j - 1];
      k + 1
  }

  // ---- the port generator ----------------------------------------------------------

  function UsedPorts(t: seq<Entry>): set<int> { set j | 0 <= j < |t| && t[j].used :: t[j].pubpt }

  /** The 16-bit successor, brought back into range only from above. */
  function NextTry(port: int): int {
    var q := (port + 1) % PORTS;
    if q >= LASTPORT then FIRSTPORT else q
  }

  /** The `i`th candidate after `port`. */
  function Candidate(port: int, i: nat): int { if i == 0 then port else NextTry(Candidate(port, i - 1)) }

  /** The number of candidates that are taken, as far as there are table entries. */
  function Tries(t: seq<Entry>, port: int, i: nat): (n: nat)
    requires i <= NATUDPSIZ
    ensures i <= n <= NATUDPSIZ && forall j :: i <= j < n ==> Candidate(port, j) in UsedPorts(t)
    ensures n < NATUDPSIZ ==> Candidate(port, n) !in UsedPorts(t)
    decreases NATUDPSIZ - i
  {
    if i == NATUDPSIZ || Candidate(port, i) !in UsedPorts(t) then i else Tries(t, port, i + 1)
  }

  /** The first increment has no range check at all. */
  function Genuport(t: seq<Entry>, port: int): int {
    var first := (port + 1) % PORTS;
    Candidate(first, Tries(t, first, 0))
  }

  // ---- packets ---------------------------------------------------------------------

  function ToPrivate(p: Packet, e: Entry): Packet { p.(ipdst := e.privip, dport := e.privpt, cksum := 0,
                     iface := e.iface) }

  function ToPublic(p: Packet, e: Entry): Packet { p.(ipsrc := e.pubip, sport := e.pubpt, cksum := 0, iface := 0) }

  function InUdp(s: State, p: Packet, now: int): (State, Outcome) {
    var k, t := Find(s.table, Inbound, p), Scan(s.table, Inbound, p, now);
    (s.(table := t), if k < |s.table| then Sent(ToPrivate(p, s.table[k])) else Local(p))
  }

  function OutUdp(s: State, p: Packet, now: int): (State, Outcome) {
    var k, t := Find(s.table, Outbound, p), Scan(s.table, Outbound, p, now);
    if k < |s.table| then (s.(table := t), Sent(ToPublic(p, s.table[k])))
    else
      var f := FreeSlot(t);
      if f == |t| then (s.(table := t), Panic)
      else
        var port := Genuport(t, s.port);
        var e := Entry(true, p.iface, p.ipdst, p.dport, s.pubip, port, p.ipsrc, p.sport, now);
        (State(t[f := e], port, s.pubip), Sent(ToPublic(p, e)))
  }

  // ---- the port generator ends and is right ----------------------------------------

  /** Candidates in closed form, as far as the table could force them. */
  lemma {:induction false} CandidateAt(port: int, i: nat)
    requires 0 <= port < PORTS && i <= NATUDPSIZ
    ensures Candidate(port, i) ==
            if i == 0 then port
            else if port == PORTS - 1 then i - 1
            else if port >= LASTPORT then FIRSTPORT + i - 1
            else if port + i < LASTPORT then port + i
            else FIRSTPORT + (port + i - LASTPORT)
  {
    if i > 0 { CandidateAt(port, i - 1); }
  }

  lemma CandidatesDiffer(port: int, i: nat, j: nat)
    requires 0 <= port < PORTS && i < j <= NATUDPSIZ
    ensures Candidate(port, i) != Candidate(port, j)
  {
    CandidateAt(port, i);
    CandidateAt(port, j);
  }

  function Candidates(port: int, n: nat): set<int> { set i | 0 <= i < n :: Candidate(port, i) }

  lemma {:induction false} CandidateCount(port: int, n: nat)
    requires 0 <= port < PORTS && n <= NATUDPSIZ + 1
    ensures |Candidates(port, n)| == n
  {
    if n > 0 {
      CandidateCount(port, n - 1);
      assert Candidates(port, n) == Candidates(port, n - 1) + {Candidate(port, n - 1)};
      forall i: nat | i < n - 1
        ensures Candidate(port, i) != Candidate(port, n - 1)
      {
        CandidatesDiffer(port, i, n - 1);
      }
    } else {
      assert Candidates(port, 0) == {};
    }
  }

  lemma {:induction false} UsedPortsCount(t: seq<Entry>)
    ensures |UsedPorts(t)| <= |t|
    decreases |t|
  {
    if t == [] {
      assert UsedPorts(t) == {};
    } else {
      var n := |t| - 1;
      UsedPortsCount(t[..n]);
      assert UsedPorts(t) == UsedPorts(t[..n]) + if t[n].used then {t[n].pubpt} else {};
    }
  }

  lemma SubsetCount(a: set<int>, b: set<int>)
    requires a <= b
    ensures |a| <= |b|
  {
    assert b == a + (b - a);
  }

  /** Among any 41 candidates one is not in the table. */
  lemma SomeFree(t: seq<Entry>, port: int, n: nat)
    requires |t| == NATUDPSIZ && 0 <= port < PORTS && n <= NATUDPSIZ + 1
    requires forall j :: 0 <= j < n ==> Candidate(port, j) in UsedPorts(t)
    ensures n <= NATUDPSIZ
  {
    CandidateCount(port, n);
    UsedPortsCount(t);
    SubsetCount(Candidates(port, n), UsedPorts(t));
  }

  /** From every starting port the generator finds a 16-bit port that no used entry holds. */
  lemma GenuportUnused(t: seq<Entry>, port: int)
    requires |t| == NATUDPSIZ && 0 <= port < PORTS
    ensures Genuport(t, port) !in UsedPorts(t) && 0 <= Genuport(t, port) < PORTS
  {
    var first := (port + 1) % PORTS;
    var n := Tries(t, first, 0);
    CandidateAt(first, n);
    if n == NATUDPSIZ && Candidate(first, n) in UsedPorts(t) {
      SomeFree(t, first, n + 1);
    }
  }

  // ---- the invariant ---------------------------------------------------------------

  predicate SameFlow(a: Entry, b: Entry) {
    a.privip == b.privip && a.privpt == b.privpt && a.destip == b.destip && a.destpt == b.destpt
  }

  predicate GoodEntry(e: Entry, pubip: int, now: int) {
    0 <= e.time <= now && e.pubip == pubip && 0 <= e.pubpt < PORTS
  }

  predicate Compatible(a: Entry, b: Entry) { a.used && b.used ==> a.pubpt != b.pubpt && !SameFlow(a, b) }

  /** Used entries have distinct public ports and distinct private flows. */
  ghost predicate Inv(s: State, now: int) {
    && |s.table| == NATUDPSIZ && 0 <= s.port < PORTS && 0 <= now < WORD
    && (forall i :: 0 <= i < |s.table| && s.table[i].used ==> GoodEntry(s.table[i], s.pubip, now))
    && (forall i, j :: 0 <= i < j < |s.table| ==> Compatible(s.table[i], s.table[j]))
  }

  /** So at most one entry can match a packet, in either direction: the one a search finds. */
  lemma OneMatch(s: State, now: int, d: Direction, p: Packet, j: nat)
    requires Inv(s, now) && j < |s.table| && Hit(d, s.table[j], p)
    ensures j == Find(s.table, d, p)
  {
    assert forall i :: 0 <= i < j ==> Compatible(s.table[i], s.table[j]);
  }

  /** Slot by slot, a scan drops expired entries, refreshes the match and changes no more. */
  ghost predicate Scanned(e: Entry, e': Entry, now: int, hit: bool) {
    if hit then e' == e.(time := now) else e' == e || (e.used && Expired(e, now) && e' == e.(used := false))
  }

  lemma ScanSlot(t: seq<Entry>, d: Direction, p: Packet, now: int, i: nat)
    requires i < |t|
    ensures |Scan(t, d, p, now)| == |t| && Scanned(t[i], Scan(t, d, p, now)[i], now, i == Find(t, d, p))
  {
  }

  lemma ScanInv(s: State, d: Direction, p: Packet, now: int, later: int)
    requires Inv(s, now) && now <= later < WORD
    ensures Inv(s.(table := Scan(s.table, d, p, later)), later)
  {
    var t := Scan(s.table, d, p, later);
    forall i: nat | i < |s.table|
      ensures |t| == |s.table| && Scanned(s.table[i], t[i], later, i == Find(s.table, d, p))
    {
      ScanSlot(s.table, d, p, later, i);
    }
    hide Scan, Find, Expired;
    assert |t| == |s.table| by { ScanSlot(s.table, d, p, later, 0); }
    forall i, j | 0 <= i < j < |t|
      ensures Compatible(t[i], t[j])
    {
      assert Compatible(s.table[i], s.table[j]);
    }
  }

  lemma {:induction false} UsedPortsHold(t: seq<Entry>, i: nat)
    requires i < |t| && t[i].used
    ensures t[i].pubpt in UsedPorts(t)
  {
  }

  /** Installing an entry for a flow that is not in the table, with an unused port. */
  lemma InstallInv(s: State, now: int, f: nat, e: Entry, port: int)
    requires Inv(s, now) && f < |s.table| && e.used && GoodEntry(e, s.pubip, now) && 0 <= port < PORTS
    requires e.pubpt !in UsedPorts(s.table)
    requires forall i :: 0 <= i < |s.table| && s.table[i].used ==> !SameFlow(s.table[i], e)
    ensures Inv(State(s.table[f := e], port, s.pubip), now)
  {
    var t := s.table[f := e];
    forall i: nat, j: nat | i < j < |t|
      ensures Compatible(t[i], t[j])
    {
      assert Compatible(s.table[i], s.table[j]);
      if i == f && t[j].used { UsedPortsHold(s.table, j); }
      if j == f && t[i].used { UsedPortsHold(s.table, i); }
    }
  }

  /** A scan without a match leaves no entry of the packet's flow. */
  lemma NoFlow(t: seq<Entry>, p: Packet, now: int, e: Entry)
    requires Find(t, Outbound, p) == |t|
    requires e.privip == p.ipsrc && e.privpt == p.sport && e.destip == p.ipdst && e.destpt == p.dport
    ensures var u := Scan(t, Outbound, p, now); |u| == |t| && forall i :: 0 <= i < |u| && u[i].used ==>
              !SameFlow(u[i], e)
  {
    var u := Scan(t, Outbound, p, now);
    forall i: nat | i < |t|
      ensures |u| == |t| && (u[i].used ==> !SameFlow(u[i], e))
    {
      ScanSlot(t, Outbound, p, now, i);
      assert !Hit(Outbound, t[i], p);
    }
  }

  datatype Event = Arrive(d: Direction, pkt: Packet, time: int)

  function Handle(s: State, v: Event): (State, Outcome) {
    if v.d.Inbound? then InUdp(s, v.pkt, v.time) else OutUdp(s, v.pkt, v.time)
  }

  lemma HandleInv(s: State, now: int, v: Event)
    requires Inv(s, now) && now <= v.time < WORD
    ensures Inv(Handle(s, v).0, v.time)
  {
    ScanInv(s, v.d, v.pkt, now, v.time);
    var k, t := Find(s.table, v.d, v.pkt), Scan(s.table, v.d, v.pkt, v.time);
    hide Scan, Inv;
    if v.d.Outbound? && k == |s.table| && FreeSlot(t) < |t| {
      Sizes(s.(table := t), v.time);
      GenuportUnused(t, s.port);
      hide Genuport, UsedPorts;
      var p := v.pkt;
      var e := Entry(true, p.iface, p.ipdst, p.dport, s.pubip, Genuport(t, s.port), p.ipsrc, p.sport, v.time);
      NoFlow(s.table, p, v.time, e);
      InstallInv(s.(table := t), v.time, FreeSlot(t), e, e.pubpt);
    }
  }

  lemma Sizes(s: State, now: int)
    requires Inv(s, now)
    ensures |s.table| == NATUDPSIZ && 0 <= s.port < PORTS && 0 <= now < WORD
  {
  }

  // ---- whole histories -------------------------------------------------------------

  /** Time stamps do not decrease and stay below 2^32. */
  predicate Clocked(vs: seq<Event>, now: int)
    decreases |vs|
  {
    vs == [] || (now <= vs[0].time < WORD && Clocked(vs[1..], vs[0].time))
  }

  function Run(s: State, vs: seq<Event>): State
    decreases |vs|
  {
    if vs == [] then s else Run(Handle(s, vs[0]).0, vs[1..])
  }

  function LastTime(vs: seq<Event>, now: int): int { if vs == [] then now else vs[|vs| - 1].time }

  function Blank(): Entry { Entry(false, 0, 0, 0, 0, 0, 0, 0, 0) }

  function Boot(pubip: int): State { State(seq(NATUDPSIZ, _ => Blank()), FIRSTPORT, pubip) }

  lemma {:induction false} RunInv(s: State, now: int, vs: seq<Event>)
    requires Inv(s, now) && Clocked(vs, now)
    ensures Inv(Run(s, vs), LastTime(vs, now)) && now <= LastTime(vs, now)
    decreases |vs|
  {
    if vs != [] {
      HandleInv(s, now, vs[0]);
      hide Inv, Handle;
      RunInv(Handle(s, vs[0]).0, vs[0].time, vs[1..]);
    }
  }

  /** After any history from boot, used entries have distinct public ports and flows, and a
      packet in either direction meets at most one of them. */
  lemma ReachableInv(pubip: int, vs: seq<Event>, d: Direction, p: Packet, i: nat, j: nat)
    requires Clocked(vs, 0) && i < j < NATUDPSIZ
    ensures var t := Run(Boot(pubip), vs).table;
            && |t| == NATUDPSIZ && !(Hit(d, t[i], p) && Hit(d, t[j], p))
            && (t[i].used && t[j].used ==> t[i].pubpt != t[j].pubpt && !SameFlow(t[i], t[j]))
  {
    RunInv(Boot(pubip), 0, vs);
    var t := Run(Boot(pubip), vs).table;
    assert Compatible(t[i], t[j]);
    hide Run, Boot;
  }
}
