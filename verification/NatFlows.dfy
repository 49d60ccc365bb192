/**
 What a host behind the translator may rely on: an entry in use stays as it is, and a reply
 within the timeout reaches exactly the host, port and interface the flow came from.
 */
module NatFlows {
  import opened Nat

  lemma FreshEntry(e: Entry, now: int)
    requires 0 <= e.time <= now < WORD
    ensures Expired(e, now) <==> now - e.time > NAT_TIMEOUT
  {
  }

  /** The table after a packet is the scanned one, but for an entry put in a free slot. */
  lemma HandleSlot(s: State, v: Event, i: nat)
    requires i < |s.table|
    ensures var t, t' := Scan(s.table, v.d, v.pkt, v.time), Handle(s, v).0.table;
            |t| == |t'| == |s.table| && (t[i].used ==> t'[i] == t[i])
  {
    ScanSlot(s.table, v.d, v.pkt, v.time, i);
    hide Scan, Genuport;
  }

  /** An entry used within the timeout is not evicted; only a packet of its own flow touches
      it, and only to refresh it. */
  lemma ProtectedStep(s: State, now: int, v: Event, i: nat)
    requires Inv(s, now) && now <= v.time < WORD
    requires i < |s.table| && s.table[i].used && v.time - s.table[i].time <= NAT_TIMEOUT
    ensures var e := s.table[i];
            && i < |Handle(s, v).0.table|
            && Handle(s, v).0.table[i] == if Hit(v.d, e, v.pkt) then e.(time := v.time) else e
  {
    var e := s.table[i];
    assert GoodEntry(e, s.pubip, now);
    FreshEntry(e, v.time);
    ScanSlot(s.table, v.d, v.pkt, v.time, i);
    HandleSlot(s, v, i);
    if Hit(v.d, e, v.pkt) { OneMatch(s, now, v.d, v.pkt, i); }
    hide Scan, Handle, Expired, Inv;
  }

  /** The same entry, perhaps refreshed. */
  predicate Kept(e: Entry, e': Entry) { e' == e.(time := e'.time) && e.time <= e'.time }

  lemma {:induction false} ProtectedRun(s: State, now: int, vs: seq<Event>, i: nat)
    requires Inv(s, now) && Clocked(vs, now)
    requires i < |s.table| && s.table[i].used && LastTime(vs, now) - s.table[i].time <= NAT_TIMEOUT
    ensures i < |Run(s, vs).table| && Kept(s.table[i], Run(s, vs).table[i])
    decreases |vs|
  {
    if vs != [] {
      var v, e := vs[0], s.table[i];
      assert GoodEntry(e, s.pubip, now);
      HandleInv(s, now, v);
      RunInv(Handle(s, v).0, v.time, vs[1..]);
      ProtectedStep(s, now, v, i);
      hide Inv, Handle;
      ProtectedRun(Handle(s, v).0, v.time, vs[1..], i);
    }
  }

  // ---- the entry an outbound packet leaves -----------------------------------------

  /** The interface recorded for the flow of a packet: that of the packet that opened it. */
  function FlowIface(s: State, p: Packet): int {
    var k := Find(s.table, Outbound, p);
    if k < |s.table| then s.table[k].iface else p.iface
  }

  /** Entry `e` carries the flow of `p`, which left as `q`. */
  predicate Carries(e: Entry, p: Packet, q: Packet, iface: int, now: int) {
    && e == Entry(true, iface, p.ipdst, p.dport, q.ipsrc, q.sport, p.ipsrc, p.sport, now)
    && q.ipdst == p.ipdst && q.dport == p.dport
  }

  lemma OutEntry(s: State, p: Packet, now: int)
    requires OutUdp(s, p, now).1.Sent?
    ensures var (s', o) := OutUdp(s, p, now); exists i ::
              0 <= i < |s'.table| && Carries(s'.table[i], p, o.pkt, FlowIface(s, p), now)
  {
    var k, t := Find(s.table, Outbound, p), Scan(s.table, Outbound, p, now);
    var (s', o) := OutUdp(s, p, now);
    if k < |s.table| {
      assert Carries(s'.table[k], p, o.pkt, FlowIface(s, p), now);
    } else {
      assert Carries(s'.table[FreeSlot(t)], p, o.pkt, FlowIface(s, p), now);
    }
  }

  predicate ReplyTo(r: Packet, q: Packet) {
    r.ipsrc == q.ipdst && r.ipdst == q.ipsrc && r.sport == q.dport && r.dport == q.sport
  }

  /** Whatever else passes in between, a reply within the timeout is rewritten to the private
      address and port the packet came from, and to the interface of its flow. */
  lemma ReplyRoundTrip(s: State, now: int, p: Packet, sent: int, vs: seq<Event>, r: Packet, back: int)
    requires Inv(s, now) && now <= sent < WORD && OutUdp(s, p, sent).1.Sent?
    requires Clocked(vs, sent) && LastTime(vs, sent) <= back < WORD && back - sent <= NAT_TIMEOUT
    requires ReplyTo(r, OutUdp(s, p, sent).1.pkt)
    ensures InUdp(Run(OutUdp(s, p, sent).0, vs), r, back).1 ==
            Sent(r.(ipdst := p.ipsrc, dport := p.sport, cksum := 0, iface := FlowIface(s, p)))
  {
    var (s1, o) := OutUdp(s, p, sent);
    OutEntry(s, p, sent);
    var i :| 0 <= i < |s1.table| && Carries(s1.table[i], p, o.pkt, FlowIface(s, p), sent);
    HandleInv(s, now, Arrive(Outbound, p, sent));
    RunInv(s1, sent, vs);
    ProtectedRun(s1, sent, vs, i);
    var s2 := Run(s1, vs);
    OneMatch(s2, LastTime(vs, sent), Inbound, r, i);
    hide Run, Inv, OutUdp, Scan;
  }

  /** A flow opened through interface 1 and continued through interface 2: the reply still goes
      to interface 1. */
  lemma MovedHost(pubip: int)
    ensures var p := Packet(1, 0x0a00_0002, 0x0808_0808, 7, 53, 0);
            var s := Run(Boot(pubip), [Arrive(Outbound, p, 0)]);
            var p' := p.(iface := 2);
            var r := Packet(0, 0x0808_0808, pubip, 53, FIRSTPORT + 1, 0);
            && FlowIface(s, p') == 1 && OutUdp(s, p', 1).1.Sent? && ReplyTo(r, OutUdp(s, p', 1).1.pkt)
            && InUdp(OutUdp(s, p', 1).0, r, 2).1 == Sent(Packet(1, 0x0808_0808, 0x0a00_0002, 53, 7, 0))
  {
    var p := Packet(1, 0x0a00_0002, 0x0808_0808, 7, 53, 0);
    var v := Arrive(Outbound, p, 0);
    var s0, s := Boot(pubip), Run(Boot(pubip), [v]);
    var p', r := p.(iface := 2), Packet(0, 0x0808_0808, pubip, 53, FIRSTPORT + 1, 0);
    var e := Entry(true, 1, 0x0808_0808, 53, pubip, FIRSTPORT + 1, 0x0a00_0002, 7, 0);
    FirstFlow(pubip, p);
    assert Run(Handle(s0, v).0, [v][1..]) == Handle(s0, v).0;
    assert s.table[0] == e && |s.table| == NATUDPSIZ;
    RunInv(s0, 0, []);
    HandleInv(s0, 0, v);
    assert s == Handle(s0, v).0;
    OneMatch(s, 0, Outbound, p', 0);
    assert OutUdp(s, p', 1).1 == Sent(ToPublic(p', e));
    ReplyRoundTrip(s, 0, p', 1, [], r, 2);
  }

  lemma FirstFlow(pubip: int, p: Packet)
    ensures var t := OutUdp(Boot(pubip), p, 0).0.table;
            t[0] == Entry(true, p.iface, p.ipdst, p.dport, pubip, FIRSTPORT + 1, p.ipsrc, p.sport, 0)
  {
    var s := Boot(pubip);
    var t := Scan(s.table, Outbound, p, 0);
    assert Find(s.table, Outbound, p) == |s.table|;
    assert t == s.table;
    assert FreeSlot(t) == 0;
    assert UsedPorts(t) == {};
    assert Tries(t, FIRSTPORT + 1, 0) == 0;
  }

  // ---- interfaces ------------------------------------------------------------------

  /** Every private address sends through the one interface `home` names. */
  ghost predicate Homed(s: State, home: int -> int) {
    forall i :: 0 <= i < |s.table| && s.table[i].used ==> s.table[i].iface == home(s.table[i].privip)
  }

  ghost predicate FromHome(v: Event, home: int -> int) { v.d.Outbound? ==> v.pkt.iface == home(v.pkt.ipsrc) }

  lemma HomedStep(s: State, v: Event, home: int -> int)
    requires Homed(s, home) && FromHome(v, home)
    ensures Homed(Handle(s, v).0, home)
  {
    var t, t' := Scan(s.table, v.d, v.pkt, v.time), Handle(s, v).0.table;
    forall i: nat | i < |s.table|
      ensures |t'| == |s.table| && (t'[i].used ==> t'[i].iface == home(t'[i].privip))
    {
      HandleSlot(s, v, i);
      ScanSlot(s.table, v.d, v.pkt, v.time, i);
      hide Scan, Genuport, Expired;
    }
  }

  lemma {:induction false} HomedRun(s: State, vs: seq<Event>, home: int -> int)
    requires Homed(s, home) && forall i :: 0 <= i < |vs| ==> FromHome(vs[i], home)
    ensures Homed(Run(s, vs), home)
    decreases |vs|
  {
    if vs != [] {
      HomedStep(s, vs[0], home);
      assert forall i :: 0 <= i < |vs| - 1 ==> vs[1..][i] == vs[i + 1];
      HomedRun(Handle(s, vs[0]).0, vs[1..], home);
    }
  }

  /** From boot, through any history: the reply arrives where the packet came from. */
  lemma ReplyReachesHost(pubip: int, before: seq<Event>, p: Packet, sent: int, vs: seq<Event>, r: Packet, back: int,
                         home: int -> int)
    requires Clocked(before, 0) && LastTime(before, 0) <= sent < WORD
    requires p.iface == home(p.ipsrc) && forall i :: 0 <= i < |before| ==> FromHome(before[i], home)
    requires OutUdp(Run(Boot(pubip), before), p, sent).1.Sent?
    requires Clocked(vs, sent) && LastTime(vs, sent) <= back < WORD && back - sent <= NAT_TIMEOUT
    requires ReplyTo(r, OutUdp(Run(Boot(pubip), before), p, sent).1.pkt)
    ensures var s1 := OutUdp(Run(Boot(pubip), before), p, sent).0;
            InUdp(Run(s1, vs), r, back).1 == Sent(r.(ipdst := p.ipsrc, dport := p.sport, cksum := 0, iface := p.iface))
  {
    var s := Run(Boot(pubip), before);
    RunInv(Boot(pubip), 0, before);
    HomedRun(Boot(pubip), before, home);
    ReplyRoundTrip(s, LastTime(before, 0), p, sent, vs, r, back);
    hide Run, OutUdp, InUdp;
  }

  // ---- overflow --------------------------------------------------------------------

  /** The table overflows exactly when all 40 entries belong to other flows that were used
      within the timeout. */
  lemma PanicExact(s: State, now: int, p: Packet, later: int)
    requires Inv(s, now) && now <= later < WORD
    ensures OutUdp(s, p, later).1.Panic? <==>
            forall i :: 0 <= i < |s.table| ==>
              s.table[i].used && !Matches(Outbound, s.table[i], p) && later - s.table[i].time <= NAT_TIMEOUT
  {
    var k, t := Find(s.table, Outbound, p), Scan(s.table, Outbound, p, later);
    forall i: nat | i < |s.table|
      ensures |t| == |s.table| && Scanned(s.table[i], t[i], later, i == k)
      ensures s.table[i].used ==> (Expired(s.table[i], later) <==> later - s.table[i].time > NAT_TIMEOUT)
      ensures k == |s.table| ==> t[i] == Aged(s.table[i], later)
    {
      ScanSlot(s.table, Outbound, p, later, i);
      if s.table[i].used { FreshEntry(s.table[i], later); }
    }
    hide Scan, Expired, Genuport;
  }
}
