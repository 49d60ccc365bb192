/**
 What a packet does to the translation table and what becomes of it, with every address, port
 and field written out, for both directions and every table the kernel can reach.
 */
module NatRules {
  import opened Nat
  import opened NatPorts

  /** A packet from the Internet answers the flow of a used entry: all four of its addresses match. */
  predicate Answers(e: Entry, p: Packet) {
    e.used && e.destip == p.ipsrc && e.destpt == p.sport && e.pubip == p.ipdst && e.pubpt == p.dport
  }

  /** A packet from inside belongs to the flow of a used entry. */
  predicate Belongs(e: Entry, p: Packet) {
    e.used && e.privip == p.ipsrc && e.privpt == p.sport && e.destip == p.ipdst && e.destpt == p.dport
  }

  /** A used entry that has been idle for more than 300 seconds. */
  predicate Stale(e: Entry, now: int) { e.used && now - e.time > 300 }

  function Dropped(e: Entry, now: int): Entry { if Stale(e, now) then e.(used := false) else e }

  /** Entry `i` was used by a packet at `now`: it is refreshed, also when it was stale; stale
      entries before it are dropped and nothing else changes. */
  ghost predicate Refreshed(t: seq<Entry>, t': seq<Entry>, i: int, now: int) {
    && |t'| == |t|
    && forall j :: 0 <= j < |t| ==>
         t'[j] == if j == i then t[j].(time := now) else if j < i then Dropped(t[j], now) else t[j]
  }

  ghost predicate AllDropped(t: seq<Entry>, t': seq<Entry>, now: int) {
    |t'| == |t| && forall j :: 0 <= j < |t| ==> t'[j] == Dropped(t[j], now)
  }

  /** In a reachable table no time stamp lies in the future, so the 32-bit difference does not wrap. */
  lemma AgedIs(e: Entry, now: int)
    requires e.used ==> 0 <= e.time <= now < WORD
    ensures Aged(e, now) == Dropped(e, now)
  {
  }

  lemma SlotAges(s: State, was: int, now: int, j: nat)
    requires Inv(s, was) && was <= now < WORD && j < |s.table|
    ensures Aged(s.table[j], now) == Dropped(s.table[j], now)
  {
    AgedIs(s.table[j], now);
    hide Expired;
  }

  lemma SweepAt(t: seq<Entry>, k: nat, now: int, j: nat)
    requires j < |t|
    ensures |Sweep(t, k, now)| == |t| && Sweep(t, k, now)[j] == if j < k then Aged(t[j], now) else t[j]
  {
    hide Aged;
  }

  lemma ScanRefreshes(s: State, d: Direction, p: Packet, was: int, now: int, i: nat)
    requires Inv(s, was) && was <= now < WORD && i < |s.table| && Hit(d, s.table[i], p)
    ensures Find(s.table, d, p) == i && Refreshed(s.table, Scan(s.table, d, p, now), i, now)
  {
    hide Find, Sweep, Inv, Aged, Dropped, Hit;
    OneMatch(s, was, d, p, i);
    var t := s.table;
    SweepSize(t, i, now);
    forall j: nat | j < |t|
      ensures Scan(t, d, p, now)[j] == if j == i then t[j].(time := now) else if j < i then Dropped(t[j], now) else t[j]
    {
      SweepAt(t, i, now, j);
      SlotAges(s, was, now, j);
    }
  }

  lemma ScanDrops(s: State, d: Direction, p: Packet, was: int, now: int)
    requires Inv(s, was) && was <= now < WORD && Find(s.table, d, p) == |s.table|
    ensures AllDropped(s.table, Scan(s.table, d, p, now), now)
  {
    hide Find, Sweep, Inv, Aged, Dropped;
    var t := s.table;
    SweepSize(t, |t|, now);
    forall j: nat | j < |t|
      ensures Scan(t, d, p, now)[j] == Dropped(t[j], now)
    {
      SweepAt(t, |t|, now, j);
      SlotAges(s, was, now, j);
    }
  }

  lemma SweepSize(t: seq<Entry>, k: nat, now: int)
    ensures |Sweep(t, k, now)| == |t|
  {
  }

  /** A packet from the Internet is sent inside if and only if it answers the flow of a used entry,
      then to that entry's private address and port over the interface recorded; otherwise it is
      given to the local stack as it came, and only stale entries change. */
  lemma InboundExact(s: State, was: int, p: Packet, now: int)
    requires Inv(s, was) && was <= now < WORD
    ensures var (t, o) := InUdp(s, p, now);
            && t == s.(table := t.table)
            && (o.Sent? <==> exists i :: 0 <= i < |s.table| && Answers(s.table[i], p))
            && (forall i :: 0 <= i < |s.table| && Answers(s.table[i], p) ==>
                  && o == Sent(Packet(s.table[i].iface, p.ipsrc, s.table[i].privip, p.sport, s.table[i].privpt, 0))
                  && Refreshed(s.table, t.table, i, now))
            && (!o.Sent? ==> o == Local(p) && AllDropped(s.table, t.table, now))
  {
    var k := Find(s.table, Inbound, p);
    if k < |s.table| {
      assert Answers(s.table[k], p);
      ScanRefreshes(s, Inbound, p, was, now, k);
      forall i: nat | i < |s.table| && Answers(s.table[i], p)
        ensures i == k
      {
        OneMatch(s, was, Inbound, p, i);
      }
    } else {
      ScanDrops(s, Inbound, p, was, now);
      forall i | 0 <= i < |s.table|
        ensures !Answers(s.table[i], p)
      {
        assert !Hit(Inbound, s.table[i], p);
      }
    }
    hide Inv, Find, Scan, Refreshed, AllDropped;
  }

  /** A new flow takes the first entry that is free or stale, with a port nobody holds. */
  ghost predicate Opened(s: State, t: State, f: int, p: Packet, now: int) {
    && |t.table| == |s.table| && t.pubip == s.pubip && 0 <= f < |s.table|
    && (!s.table[f].used || Stale(s.table[f], now))
    && (forall j :: 0 <= j < f ==> s.table[j].used && !Stale(s.table[j], now))
    && t.table[f] == Entry(true, p.iface, p.ipdst, p.dport, s.pubip, t.port, p.ipsrc, p.sport, now)
    && forall j :: 0 <= j < |s.table| && j != f ==>
         t.table[j] == Dropped(s.table[j], now) && (t.table[j].used ==> t.table[j].pubpt != t.port)
  }

  /** A packet from inside that belongs to a used entry leaves from that entry's public address and
      port; any other opens a new flow, or overflows the table when every entry is used and not
      stale. */
  lemma OutboundExact(s: State, was: int, p: Packet, now: int)
    requires Inv(s, was) && was <= now < WORD
    ensures var (t, o) := OutUdp(s, p, now);
            && !o.Local?
            && (forall i :: 0 <= i < |s.table| && Belongs(s.table[i], p) ==>
                  && o == Sent(Packet(0, s.table[i].pubip, p.ipdst, s.table[i].pubpt, p.dport, 0))
                  && t == s.(table := t.table) && Refreshed(s.table, t.table, i, now))
            && ((forall i :: 0 <= i < |s.table| ==> !Belongs(s.table[i], p)) ==>
                  if forall i :: 0 <= i < |s.table| ==> s.table[i].used && !Stale(s.table[i], now)
                  then o == Panic && t == s
                  else && o == Sent(Packet(0, s.pubip, p.ipdst, t.port, p.dport, 0))
                       && exists f :: Opened(s, t, f, p, now))
  {
    var k := Find(s.table, Outbound, p);
    if k < |s.table| {
      assert Belongs(s.table[k], p);
      ScanRefreshes(s, Outbound, p, was, now, k);
      forall i: nat | i < |s.table| && Belongs(s.table[i], p)
        ensures i == k
      {
        OneMatch(s, was, Outbound, p, i);
      }
      hide Inv, Find, Scan, Refreshed;
    } else {
      forall i | 0 <= i < |s.table|
        ensures !Belongs(s.table[i], p)
      {
        assert !Hit(Outbound, s.table[i], p);
      }
      OpensFlow(s, was, p, now);
      hide Inv, Find, Scan, Refreshed, OutUdp, Opened;
    }
  }

  lemma OpensFlow(s: State, was: int, p: Packet, now: int)
    requires Inv(s, was) && was <= now < WORD && Find(s.table, Outbound, p) == |s.table|
    ensures var (t, o) := OutUdp(s, p, now);
            if forall i :: 0 <= i < |s.table| ==> s.table[i].used && !Stale(s.table[i], now)
            then o == Panic && t == s
            else o == Sent(Packet(0, s.pubip, p.ipdst, t.port, p.dport, 0)) && exists f :: Opened(s, t, f, p, now)
  {
    ScanDrops(s, Outbound, p, was, now);
    Sizes(s, was);
    var u := Scan(s.table, Outbound, p, now);
    var f := FreeSlot(u);
    hide Inv, Find, Scan, Genuport, UsedPorts, FreeSlot;
    if f < |u| {
      GenuportUnused(u, s.port);
      var t := OutUdp(s, p, now).0;
      forall j | 0 <= j < |u| && u[j].used
        ensures u[j].pubpt != t.port
      {
        UsedPortsHold(u, j);
      }
      assert !u[f].used;
      assert Opened(s, t, f, p, now);
    } else {
      assert forall j :: 0 <= j < |u| ==> u[j].used;
      assert u == s.table;
    }
  }

  // ---- which port ------------------------------------------------------------------

  /** How far `q` lies behind the last port in the cycle 40000, ..., 49999. */
  function Ahead(port: int, q: int): int { (q - port - 1) % 10000 }

  lemma CandidateAhead(port: int, i: nat)
    requires FIRSTPORT <= port < LASTPORT - 1 && i <= NATUDPSIZ
    ensures InRange(Candidate(port + 1, i)) && Ahead(port, Candidate(port + 1, i)) == i
  {
    CandidateAt(port + 1, i);
  }

  lemma AheadOnce(port: int, a: int, b: int)
    requires InRange(a) && InRange(b) && Ahead(port, a) == Ahead(port, b)
    ensures a == b
  {
  }

  /** From a port of the range other than its last, the generator goes to the next port of the
      range, cyclically, that no used entry holds. */
  lemma NextFreePort(t: seq<Entry>, port: int)
    requires |t| == NATUDPSIZ && FIRSTPORT <= port < LASTPORT - 1
    ensures var q := Genuport(t, port);
            && InRange(q) && q !in UsedPorts(t)
            && forall r :: InRange(r) && Ahead(port, r) < Ahead(port, q) ==> r in UsedPorts(t)
  {
    var first := FirstTry(port);
    assert first == port + 1;
    var n := Tries(t, first, 0);
    var q := Genuport(t, port);
    GenuportUnused(t, port);
    CandidateAhead(port, n);
    hide Ahead, Candidate;
    forall r | InRange(r) && Ahead(port, r) < n
      ensures r in UsedPorts(t)
    {
      AheadNat(port, r);
      CandidateAhead(port, Ahead(port, r));
      AheadOnce(port, r, Candidate(first, Ahead(port, r)));
    }
  }

  lemma AheadNat(port: int, r: int)
    ensures 0 <= Ahead(port, r)
  {
  }
}
