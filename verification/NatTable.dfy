/**
 The translation table as the code keeps it: an array of entries scanned and updated in
 place, and the static port of the generator.
 */
module NatTable {
  import opened Nat

  lemma SweepNext(t: seq<Entry>, k: nat, now: int)
    requires k < |t|
    ensures Sweep(t, k + 1, now) == Sweep(t, k, now)[k := Aged(t[k], now)]
    ensures |Sweep(t, k, now)| == |t| && Sweep(t, k, now)[k] == t[k]
  {
  }

  lemma FindIs(t: seq<Entry>, d: Direction, p: Packet, k: nat)
    requires k <= |t| && (forall j :: 0 <= j < k ==> !Hit(d, t[j], p)) && (k < |t| ==> Hit(d, t[k], p))
    ensures Find(t, d, p) == k
  {
  }

  lemma FreeSlotIs(t: seq<Entry>, k: nat)
    requires k <= |t| && (forall j :: 0 <= j < k ==> t[j].used) && (k < |t| ==> !t[k].used)
    ensures FreeSlot(t) == k
  {
  }

  /** The slots before `k` as a search for a free slot has seen them. */
  ghost predicate SeenFree(t: seq<Entry>, k: nat, freeslot: int)
    requires k <= |t|
  {
    if freeslot < 0 then freeslot == -1 && forall j :: 0 <= j < k ==> t[j].used
    else freeslot < k && !t[freeslot].used && forall j :: 0 <= j < freeslot ==> t[j].used
  }

  class NatTable {
    const nat_udp: array<Entry>
    var port: int
    const pubip: int

    ghost predicate Valid()
      reads this, nat_udp
    {
      nat_udp.Length == NATUDPSIZ && 0 <= port < PORTS
    }

    ghost function Model(): State
      reads this, nat_udp
    {
      State(nat_udp[..], port, pubip)
    }

    /** `nat_init`. */
    constructor (address: int)
      ensures Valid() && fresh(nat_udp) && Model() == Boot(address)
    {
      pubip := address;
      port := FIRSTPORT;
      nat_udp := new Entry[NATUDPSIZ](_ => Blank());
      new;
      assert nat_udp[..] == Boot(address).table;
    }

    /** The scan of `nat_in_udp`. */
    method ScanIn(p: Packet, now: int) returns (slot: nat)
      requires Valid()
      modifies nat_udp
      ensures Valid() && slot == Find(old(nat_udp[..]), Inbound, p)
      ensures nat_udp[..] == Scan(old(nat_udp[..]), Inbound, p, now)
    {
      ghost var t := nat_udp[..];
      assert Sweep(t, 0, now) == t;
      hide Expired, Sweep;
      slot := 0;
      while slot < NATUDPSIZ
        invariant slot <= NATUDPSIZ && nat_udp[..] == Sweep(t, slot, now)
        invariant forall j :: 0 <= j < slot ==> !Hit(Inbound, t[j], p)
      {
        SweepNext(t, slot, now);
        var e := nat_udp[slot];
        assert e == nat_udp[..][slot] == t[slot];
        if e.used {
          if p.ipsrc == e.destip && p.ipdst == e.pubip && p.sport == e.destpt && p.dport == e.pubpt {
            nat_udp[slot] := e.(time := now);
            break;
          }
          if Expired(e, now) { nat_udp[slot] := e.(used := false); }
        }
        slot := slot + 1;
      }
      FindIs(t, Inbound, p, slot);
    }

    method NatInUdp(p: Packet, now: int) returns (o: Outcome)
      requires Valid()
      modifies nat_udp
      ensures Valid() && (Model(), o) == InUdp(old(Model()), p, now)
    {
      ghost var s := Model();
      var slot := ScanIn(p, now);
      hide Scan;
      if slot >= NATUDPSIZ { return Local(p); }
      ScanSlot(s.table, Inbound, p, now, slot);
      var e := nat_udp[slot];
      assert e == nat_udp[..][slot];
      o := Sent(p.(ipdst := e.privip, dport := e.privpt, cksum := 0, iface := e.iface));
    }

    /** The scan of `nat_out_udp`, which also looks for a free slot. */
    method ScanOut(p: Packet, now: int) returns (slot: nat, freeslot: int)
      requires Valid()
      modifies nat_udp
      ensures Valid() && slot == Find(old(nat_udp[..]), Outbound, p)
      ensures nat_udp[..] == Scan(old(nat_udp[..]), Outbound, p, now)
      ensures slot == NATUDPSIZ ==> SeenFree(nat_udp[..], slot, freeslot)
    {
      ghost var t := nat_udp[..];
      assert Sweep(t, 0, now) == t;
      hide Expired, Sweep;
      slot, freeslot := 0, -1;
      while slot < NATUDPSIZ
        invariant slot <= NATUDPSIZ && nat_udp[..] == Sweep(t, slot, now)
        invariant forall j :: 0 <= j < slot ==> !Hit(Outbound, t[j], p)
        invariant SeenFree(nat_udp[..], slot, freeslot)
      {
        SweepNext(t, slot, now);
        var e := nat_udp[slot];
        assert e == nat_udp[..][slot] == t[slot];
        if !e.used {
          if freeslot < 0 { freeslot := slot; }
        } else if p.ipsrc == e.privip && p.ipdst == e.destip && p.sport == e.privpt && p.dport == e.destpt {
          nat_udp[slot] := e.(time := now);
          break;
        } else if Expired(e, now) {
          nat_udp[slot] := e.(used := false);
          if freeslot < 0 { freeslot := slot; }
        }
        slot := slot + 1;
      }
      FindIs(t, Outbound, p, slot);
    }

    /** The inner loop of the generator: is the port taken? */
    method PortTaken() returns (taken: bool)
      requires Valid()
      ensures taken <==> port in UsedPorts(nat_udp[..])
    {
      var slot := 0;
      while slot < NATUDPSIZ
        invariant 0 <= slot <= NATUDPSIZ
        invariant forall j :: 0 <= j < slot ==> !(nat_udp[j].used && nat_udp[j].pubpt == port)
      {
        if nat_udp[slot].used && port == nat_udp[slot].pubpt {
          assert nat_udp[..][slot] == nat_udp[slot];
          UsedPortsHold(nat_udp[..], slot);
          return true;
        }
        slot := slot + 1;
      }
      taken := false;
    }

    /** Ends because 40 entries cannot hold 41 distinct candidates. */
    method NatGenuport() returns (r: int)
      requires Valid()
      modifies this`port
      ensures Valid() && r == port == Genuport(nat_udp[..], old(port))
    {
      port := (port + 1) % PORTS;
      ghost var t, first, n := nat_udp[..], port, 0;
      var done := false;
      while !done
        invariant 0 <= n <= NATUDPSIZ && 0 <= port < PORTS && port == Candidate(first, n)
        invariant forall j :: 0 <= j < n ==> Candidate(first, j) in UsedPorts(t)
        invariant done ==> port !in UsedPorts(t)
        decreases NATUDPSIZ - n, !done
      {
        var taken := PortTaken();
        if taken {
          SomeFree(t, first, n + 1);
          port := (port + 1) % PORTS;
          if port >= LASTPORT { port := FIRSTPORT; }
          n := n + 1;
        } else {
          done := true;
        }
      }
      TriesFrom(t, first, 0, n);
      r := port;
    }

    method NatOutUdp(p: Packet, now: int) returns (o: Outcome)
      requires Valid()
      modifies this`port, nat_udp
      ensures Valid() && (Model(), o) == OutUdp(old(Model()), p, now)
    {
      ghost var s := Model();
      var slot, freeslot := ScanOut(p, now);
      ghost var t := nat_udp[..];
      hide Scan, Genuport, UsedPorts;
      if slot >= NATUDPSIZ {
        FreeSlotIs(t, if freeslot < 0 then NATUDPSIZ else freeslot);
        if freeslot < 0 { return Panic; }
        slot := freeslot;
        var pubpt := NatGenuport();
        nat_udp[slot] := Entry(true, p.iface, p.ipdst, p.dport, pubip, pubpt, p.ipsrc, p.sport, now);
      } else {
        ScanSlot(s.table, Outbound, p, now, slot);
      }
      var e := nat_udp[slot];
      assert e == nat_udp[..][slot];
      o := Sent(p.(ipsrc := e.pubip, sport := e.pubpt, cksum := 0, iface := 0));
    }
  }

  lemma {:induction false} TriesFrom(t: seq<Entry>, port: int, i: nat, n: nat)
    requires i <= n <= NATUDPSIZ && Candidate(port, n) !in UsedPorts(t)
    requires forall j :: 0 <= j < n ==> Candidate(port, j) in UsedPorts(t)
    ensures Tries(t, port, i) == n
    decreases n - i
  {
    if i < n { TriesFrom(t, port, i + 1, n); }
  }
}
