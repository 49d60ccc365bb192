/**
 Which ports the generator hands out: exactly when the public port stays within 40000 to
 49999, and a packet history from boot after which it does not.
 */
module NatPorts {
  import opened Nat

  predicate InRange(q: int) { FIRSTPORT <= q < LASTPORT }

  /** The candidate before any collision: the successor of the last port, modulo 2^16. */
  function FirstTry(port: int): int { (port + 1) % PORTS }

  /** The result is in range exactly when the search starts there, or is sent there by a
      collision above the range, or has to climb into it over used ports only. */
  lemma GenuportRange(t: seq<Entry>, port: int)
    requires |t| == NATUDPSIZ && 0 <= port < PORTS
    ensures var first := FirstTry(port);
            InRange(Genuport(t, port)) <==>
              || InRange(first)
              || (LASTPORT <= first < PORTS - 1 && first in UsedPorts(t))
              || (first < FIRSTPORT && forall q :: first <= q < FIRSTPORT ==> q in UsedPorts(t))
  {
    var first := FirstTry(port);
    var n := Tries(t, first, 0);
    CandidateAt(first, n);
    GenuportUnused(t, port);
    if first < FIRSTPORT {
      forall q | first <= q < FIRSTPORT && q < first + n
        ensures q in UsedPorts(t)
      {
        CandidateAt(first, q - first);
        assert Candidate(first, q - first) in UsedPorts(t);
      }
    } else if first >= LASTPORT && n > 0 {
      assert Candidate(first, 0) in UsedPorts(t);
    }
  }

  /** Boot's table and the last port of the range: the next port is out of it. */
  lemma RangeLeft(pubip: int)
    ensures Genuport(Boot(pubip).table, 49999) == 50000
  {
    var t := Boot(pubip).table;
    assert UsedPorts(t) == {};
    assert Tries(t, 50000, 0) == 0;
  }

  // ---- a history that leaves the range ---------------------------------------------

  /** Flow `i`: one host sends from port `i` to one server. */
  function Flow(i: nat): Packet { Packet(1, 0x0a00_0002, 0x0808_0808, i, 53, 0) }

  /** Flows 1 to n, one every 301 seconds, so that each finds its predecessor expired. */
  function Spaced(n: nat): seq<Event> {
    if n == 0 then [] else Spaced(n - 1) + [Arrive(Outbound, Flow(n), 301 * n)]
  }

  lemma {:induction false} SpacedClocked(n: nat)
    requires n <= 10000
    ensures |Spaced(n)| == n && Clocked(Spaced(n), 0) && LastTime(Spaced(n), 0) == 301 * n
  {
    if n > 0 {
      SpacedClocked(n - 1);
      ClockedPush(Spaced(n - 1), 0, Arrive(Outbound, Flow(n), 301 * n));
    }
  }

  lemma {:induction false} ClockedPush(vs: seq<Event>, now: int, v: Event)
    requires Clocked(vs, now) && LastTime(vs, now) <= v.time < WORD
    ensures Clocked(vs + [v], now)
    decreases |vs|
  {
    if vs != [] {
      assert (vs + [v])[1..] == vs[1..] + [v];
      ClockedPush(vs[1..], vs[0].time, v);
    }
  }

  lemma {:induction false} RunPush(s: State, vs: seq<Event>, v: Event)
    ensures Run(s, vs + [v]) == Handle(Run(s, vs), v).0
    decreases |vs|
  {
    if vs == [] {
      assert [] + [v] == [v];
      assert Run(s, [v]) == Run(Handle(s, v).0, [v][1..]);
    } else {
      assert (vs + [v])[1..] == vs[1..] + [v];
      RunPush(Handle(s, vs[0]).0, vs[1..], v);
    }
  }

  /** After flow `n` at most that flow is in the table, and the generator stands at 40000 + n. */
  ghost predicate Drifted(s: State, n: nat) {
    && |s.table| == NATUDPSIZ && s.port == FIRSTPORT + n
    && forall i :: 0 <= i < |s.table| && s.table[i].used ==> s.table[i].time == 301 * n && s.table[i].privpt == n
  }

  lemma DriftScan(s: State, n: nat)
    requires Drifted(s, n) && n < 10000
    ensures var p := Flow(n + 1); var t := Scan(s.table, Outbound, p, 301 * (n + 1));
            && Find(s.table, Outbound, p) == |s.table| == |t|
            && forall i :: 0 <= i < |t| ==> !t[i].used
  {
    var p, now := Flow(n + 1), 301 * (n + 1);
    var t := Scan(s.table, Outbound, p, now);
    assert Find(s.table, Outbound, p) == |s.table|;
    forall i: nat | i < |s.table|
      ensures |t| == |s.table| && !t[i].used
    {
      ScanSlot(s.table, Outbound, p, now, i);
      if s.table[i].used { assert Expired(s.table[i], now); }
      assert t[i] == Aged(s.table[i], now);
    }
  }

  lemma NoPorts(t: seq<Entry>, port: int)
    requires forall i :: 0 <= i < |t| ==> !t[i].used
    ensures UsedPorts(t) == {} && Genuport(t, port) == FirstTry(port)
  {
    assert UsedPorts(t) == {};
    assert Tries(t, FirstTry(port), 0) == 0;
  }

  lemma DriftStep(s: State, n: nat)
    requires Drifted(s, n) && n < 10000
    ensures Drifted(Handle(s, Arrive(Outbound, Flow(n + 1), 301 * (n + 1))).0, n + 1)
  {
    var t := Scan(s.table, Outbound, Flow(n + 1), 301 * (n + 1));
    DriftScan(s, n);
    NoPorts(t, s.port);
    assert FreeSlot(t) == 0;
    hide Scan, Genuport;
  }

  lemma DriftStart(pubip: int)
    ensures Drifted(Run(Boot(pubip), Spaced(0)), 0)
  {
  }

  lemma {:induction false} Drift(pubip: int, n: nat)
    requires n <= 10000
    ensures Drifted(Run(Boot(pubip), Spaced(n)), n)
  {
    hide Run, Boot, Handle, Drifted;
    if n == 0 {
      DriftStart(pubip);
    } else {
      Drift(pubip, n - 1);
      RunPush(Boot(pubip), Spaced(n - 1), Arrive(Outbound, Flow(n), 301 * n));
      DriftStep(Run(Boot(pubip), Spaced(n - 1)), n - 1);
    }
  }

  /** A history from boot that makes the generator leave 40000 to 49999: the 10000th flow goes
      out from public port 50000. */
  lemma RangeLeftFromBoot(pubip: int)
    ensures Clocked(Spaced(10000), 0)
    ensures var s := Run(Boot(pubip), Spaced(9999));
            && Run(Boot(pubip), Spaced(10000)).port == 50000
            && OutUdp(s, Flow(10000), 301 * 10000).1 ==
                 Sent(Flow(10000).(ipsrc := pubip, sport := 50000, cksum := 0, iface := 0))
  {
    SpacedClocked(10000);
    Drift(pubip, 9999);
    Drift(pubip, 10000);
    var s := Run(Boot(pubip), Spaced(9999));
    PublicAddress(pubip, Spaced(9999));
    DriftScan(s, 9999);
    NoPorts(Scan(s.table, Outbound, Flow(10000), 301 * 10000), s.port);
    hide Run, Boot, Scan, Genuport, Spaced;
    assert FreeSlot(Scan(s.table, Outbound, Flow(10000), 301 * 10000)) == 0;
  }

  lemma {:induction false} PublicAddressKept(s: State, vs: seq<Event>)
    ensures Run(s, vs).pubip == s.pubip
    decreases |vs|
  {
    if vs != [] { PublicAddressKept(Handle(s, vs[0]).0, vs[1..]); }
  }

  lemma PublicAddress(pubip: int, vs: seq<Event>)
    ensures Run(Boot(pubip), vs).pubip == pubip
  {
    PublicAddressKept(Boot(pubip), vs);
  }
}
