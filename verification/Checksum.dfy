/**
 The Internet checksum as `ipcksum` and `icmp_cksum` compute it, with a single fold of the
 carries, against the one's complement sum of section 1 of RFC 1071.
 */
module Checksum {

  const B16 := 65536

  type Word16 = x: int | 0 <= x < 65536
  type Byte = x: int | 0 <= x < 256

  // ---- sums ------------------------------------------------------------------------

  function Sum(ws: seq<Word16>): (r: int)
    ensures 0 <= r <= 65535 * |ws|
  {
    if ws == [] then 0 else Sum(ws[..|ws| - 1]) + ws[|ws| - 1]
  }

  /** One's complement addition: the carry comes back in at the low end. */
  function OnesAdd(a: Word16, b: Word16): Word16 { if a + b >= B16 then a + b - 65535 else a + b }

  function OnesSum(ws: seq<Word16>): Word16 {
    if ws == [] then 0 else OnesAdd(OnesSum(ws[..|ws| - 1]), ws[|ws| - 1])
  }

  /** A message is correct when its one's complement sum is all ones. */
  predicate RfcValid(ws: seq<Word16>) { OnesSum(ws) == 65535 }

  function Hi(s: int): int { s / B16 }
  function Lo(s: int): int { s % B16 }

  /** The two halves of a sum, added once. */
  function Halves(s: int): int { Lo(s) + Hi(s) }

  /** The complement of the low 16 bits after one fold. */
  function FoldOnce(s: int): Word16 { 65535 - (s + s / B16) % B16 }

  function IpFold(s: int): Word16 { if FoldOnce(s) == 65535 then 0 else FoldOnce(s) }

  // ---- the reference sum in closed form --------------------------------------------

  lemma Residue(x: int)
    requires 0 <= x < 65536
    ensures x % 65535 == if x == 65535 then 0 else x
  {
  }

  lemma AddResidue(s: int, a: int, w: int)
    requires 0 <= s && 0 <= a < 65536 && 0 <= w < 65536 && a % 65535 == s % 65535
    ensures (if a + w >= B16 then a + w - 65535 else a + w) % 65535 == (s + w) % 65535
  {
  }

  lemma {:induction false} OnesSumResidue(ws: seq<Word16>)
    ensures OnesSum(ws) % 65535 == Sum(ws) % 65535 && (OnesSum(ws) == 0 <==> Sum(ws) == 0)
    decreases |ws|
  {
    if ws != [] {
      OnesSumResidue(ws[..|ws| - 1]);
      AddResidue(Sum(ws[..|ws| - 1]), OnesSum(ws[..|ws| - 1]), ws[|ws| - 1]);
    }
  }

  /** Correct means: a positive multiple of 65535. */
  lemma RfcValidSum(ws: seq<Word16>)
    ensures RfcValid(ws) <==> Sum(ws) > 0 && Sum(ws) % 65535 == 0
  {
    OnesSumResidue(ws);
    Residue(OnesSum(ws));
  }

  // ---- one fold against many -------------------------------------------------------

  lemma Split(s: int)
    requires 0 <= s
    ensures s == B16 * Hi(s) + Lo(s) && 0 <= Lo(s) < B16 && 0 <= Hi(s)
  {
  }

  lemma SplitIs(s: int, h: int, l: int)
    requires s == B16 * h + l && 0 <= l < B16
    ensures Hi(s) == h && Lo(s) == l
  {
  }

  lemma FoldOnceIs(s: int)
    requires 0 <= s < B16 * B16
    ensures FoldOnce(s) == if Halves(s) < B16 then 65535 - Halves(s) else 2 * B16 - 1 - Halves(s)
  {
    Split(s);
    if Halves(s) < B16 {
      SplitIs(s + Hi(s), Hi(s), Halves(s));
    } else {
      SplitIs(s + Hi(s), Hi(s) + 1, Halves(s) - B16);
    }
  }

  lemma Multiple(s: int, h: int, r: int)
    requires s == 65535 * h + r && 0 <= r < 65535
    ensures s % 65535 == r
  {
  }

  /** What one fold says about the residue. */
  lemma HalvesResidue(s: int)
    requires 0 <= s < B16 * 65535
    ensures Halves(s) == 65535 <==> s > 0 && s % 65535 == 0
    ensures Halves(s) == 65536 <==> s > B16 && s % 65535 == 1
  {
    Split(s);
    var h, f := Hi(s), Halves(s);
    assert s == 65535 * h + f && f < 2 * 65535;
    if f < 65535 {
      Multiple(s, h, f);
    } else {
      Multiple(s, h + 1, f - 65535);
    }
  }

  // ---- IP headers ------------------------------------------------------------------

  /** The test of `ip_in`. */
  predicate IpAccepts(ws: seq<Word16>) { IpFold(Sum(ws)) == 0 }

  lemma IpFoldZero(s: int)
    requires 0 <= s < B16 * 65535
    ensures IpFold(s) == 0 <==> s == 0 || Halves(s) == 65535 || Halves(s) == 65536
  {
    Split(s);
    FoldOnceIs(s);
  }

  /** Exactly which headers `ip_in` accepts: the correct ones, the header of zeros, and those
      that are off by one because a carry of the fold was dropped. */
  lemma IpAcceptsExact(ws: seq<Word16>)
    requires |ws| == 10
    ensures IpAccepts(ws) <==> RfcValid(ws) || Sum(ws) == 0 || (Sum(ws) > B16 && Sum(ws) % 65535 == 1)
  {
    IpFoldZero(Sum(ws));
    HalvesResidue(Sum(ws));
    RfcValidSum(ws);
  }

  lemma {:induction false} SumUpdate(ws: seq<Word16>, k: nat, c: Word16)
    requires k < |ws|
    ensures Sum(ws[k := c]) == Sum(ws) - ws[k] + c
    decreases |ws|
  {
    var n := |ws| - 1;
    if k < n {
      SumUpdate(ws[..n], k, c);
      assert ws[k := c][..n] == ws[..n][k := c];
    } else {
      assert ws[k := c][..n] == ws[..n];
    }
  }

  /** The header `ip_out` sends: the checksum field zeroed, then filled in. */
  function IpStamp(ws: seq<Word16>, k: nat): seq<Word16>
    requires k < |ws|
  {
    ws[k := IpFold(Sum(ws[k := 0]))]
  }

  lemma StampSum(ws: seq<Word16>, k: nat, c: Word16)
    requires k < |ws|
    ensures Sum(ws[k := c]) == Sum(ws[k := 0]) + c
  {
    SumUpdate(ws, k, c);
    SumUpdate(ws, k, 0);
  }

  /** The sum of a stamped header, from the sum before. */
  lemma IpStampSum(s: int)
    requires 0 <= s < B16 * 30000
    ensures var t, f := s + IpFold(s), Halves(s);
            && Halves(t) == (if s == 0 then 0 else if f <= 65535 then 65535 else 65536)
            && (t == 0 <==> s == 0)
  {
    FoldOnceIs(s);
    Split(s);
    var t, f, h := s + IpFold(s), Halves(s), Hi(s);
    hide FoldOnce, Hi, Lo;
    if s == 0 {
      SplitIs(0, 0, 0);
    } else if f <= 65535 {
      SplitIs(t, h, 65535 - h);
    } else if f > 65536 {
      SplitIs(t, h + 1, 65535 - h);
    }
  }

  /** Every stamped header passes the check, also when the fold dropped a carry. */
  lemma IpStampAccepted(ws: seq<Word16>, k: nat)
    requires |ws| == 10 && k < 10
    ensures IpAccepts(IpStamp(ws, k))
  {
    var s := Sum(ws[k := 0]);
    StampSum(ws, k, IpFold(s));
    IpStampSum(s);
    IpFoldZero(Sum(IpStamp(ws, k)));
  }

  /** But it is correct in the sense of RFC 1071 only when no carry was dropped. */
  lemma IpStampRfc(ws: seq<Word16>, k: nat)
    requires |ws| == 10 && k < 10
    ensures RfcValid(IpStamp(ws, k)) <==> 0 < Halves(Sum(ws[k := 0])) <= 65535
  {
    var s := Sum(ws[k := 0]);
    StampSum(ws, k, IpFold(s));
    IpStampSum(s);
    HalvesResidue(s + IpFold(s));
    RfcValidSum(IpStamp(ws, k));
    Split(s);
  }

  /** A header from 128.10.3.51 to 128.10.3.52, 84 bytes, identification 0x342f. */
  function CarryHeader(): seq<Word16> {
    [0x4500, 0x0054, 0x342f, 0x4000] + [0x4001, 0, 0x800a, 0x0333] + [0x800a, 0x0334]
  }

  lemma {:induction false} SumConcat(a: seq<Word16>, b: seq<Word16>)
    ensures Sum(a + b) == Sum(a) + Sum(b)
    decreases |b|
  {
    if b == [] {
      assert a + b == a;
    } else {
      assert (a + b)[..|a + b| - 1] == a + b[..|b| - 1];
      SumConcat(a, b[..|b| - 1]);
    }
  }

  lemma SumTwo(a: Word16, b: Word16)
    ensures Sum([a, b]) == a + b
  {
    assert [a, b][..1] == [a] && [a][..0] == [];
  }

  lemma SumFour(a: Word16, b: Word16, c: Word16, d: Word16)
    ensures Sum([a, b, c, d]) == a + b + c + d
  {
    assert [a, b, c, d] == [a, b] + [c, d];
    SumConcat([a, b], [c, d]);
    SumTwo(a, b);
    SumTwo(c, d);
  }

  /** Its words add up to 0x1ffff, so the fold drops a carry and the stamp is not correct. */
  lemma IpStampNotRfc()
    ensures |CarryHeader()| == 10 && IpAccepts(IpStamp(CarryHeader(), 5)) && !RfcValid(IpStamp(CarryHeader(), 5))
  {
    var ws := CarryHeader();
    var a: seq<Word16> := [0x4500, 0x0054, 0x342f, 0x4000];
    var b: seq<Word16> := [0x4001, 0, 0x800a, 0x0333];
    var c: seq<Word16> := [0x800a, 0x0334];
    hide Sum, RfcValid, IpAccepts, IpStamp;
    assert ws[5 := 0] == a + b + c;
    SumConcat(a + b, c);
    SumConcat(a, b);
    SumFour(0x4500, 0x0054, 0x342f, 0x4000);
    SumFour(0x4001, 0, 0x800a, 0x0333);
    SumTwo(0x800a, 0x0334);
    assert Sum(ws[5 := 0]) == 0x1ffff;
    SplitIs(0x1ffff, 1, 0xffff);
    IpStampRfc(ws, 5);
    IpStampAccepted(ws, 5);
  }

  // ---- ICMP messages ---------------------------------------------------------------

  predicate IcmpAccepts(ws: seq<Word16>) { FoldOnce(Sum(ws)) == 0 }

  function IcmpStamp(ws: seq<Word16>, k: nat): seq<Word16>
    requires k < |ws|
  {
    ws[k := FoldOnce(Sum(ws[k := 0]))]
  }

  /** Messages of even length below 2^16 are accepted exactly when they are correct. */
  lemma IcmpAcceptsExact(ws: seq<Word16>)
    requires |ws| < 32768
    ensures IcmpAccepts(ws) <==> RfcValid(ws)
  {
    Split(Sum(ws));
    FoldOnceIs(Sum(ws));
    HalvesResidue(Sum(ws));
    RfcValidSum(ws);
    assert Hi(Sum(ws)) < 65535;
  }

  lemma IcmpStampSum(s: int)
    requires 0 <= s < B16 * 32768
    ensures Halves(s + FoldOnce(s)) == if Halves(s) <= 65535 then 65535 else 65536
  {
    FoldOnceIs(s);
    Split(s);
    var t, f, h := s + FoldOnce(s), Halves(s), Hi(s);
    hide FoldOnce, Hi, Lo;
    if f <= 65535 {
      SplitIs(t, h, 65535 - h);
    } else {
      SplitIs(t, h + 1, 65535 - h);
    }
  }

  /** A stamped message passes the check exactly when the fold of its sum drops no carry. */
  lemma IcmpStampAccepted(ws: seq<Word16>, k: nat)
    requires k < |ws| < 32768
    ensures IcmpAccepts(IcmpStamp(ws, k)) <==> Halves(Sum(ws[k := 0])) <= 65535
  {
    var s := Sum(ws[k := 0]);
    StampSum(ws, k, FoldOnce(s));
    IcmpStampSum(s);
    FoldOnceIs(s + FoldOnce(s));
  }

  /** An echo reply whose stamped form is rejected: its words add up to 0x1ffff, and the fold
      of that carries. */
  lemma IcmpStampRejected()
    ensures !IcmpAccepts(IcmpStamp([0, 0, 0xffff, 0xffff, 1], 1))
  {
    var ws: seq<Word16> := [0, 0, 0xffff, 0xffff, 1];
    IcmpStampAccepted(ws, 1);
    SumFour(0, 0, 0xffff, 0xffff);
    SumPush([0, 0, 0xffff, 0xffff], 1);
    assert ws[1 := 0] == [0, 0, 0xffff, 0xffff] + [1];
  }

  lemma SumPush(ws: seq<Word16>, w: Word16)
    ensures Sum(ws + [w]) == Sum(ws) + w
  {
    assert (ws + [w])[..|ws|] == ws;
  }

  // ---- the loops over memory -------------------------------------------------------

  /** A 16-bit load on a little-endian machine, and the byte swap of `htons` and `ntohs`. */
  function Load(lo: Byte, hi: Byte): Word16 { lo + 256 * hi }
  function Swap(w: Word16): Word16 { w % 256 * 256 + w / 256 }

  function WordAt(b: seq<Byte>, i: nat): Word16
    requires 2 * i + 1 < |b|
  {
    Swap(Load(b[2 * i], b[2 * i + 1]))
  }

  /** The words of a buffer in network byte order. */
  function Words(b: seq<Byte>): seq<Word16> { seq(|b| / 2, i requires 0 <= i < |b| / 2 => WordAt(b, i)) }

  lemma SwapLoad(x: Byte, y: Byte)
    ensures Swap(Load(x, y)) == y + 256 * x
  {
    assert Load(x, y) / 256 == y;
  }

  /** Word `i` of a buffer is its bytes `2i` and `2i + 1`, the high one first. */
  lemma NetworkOrder(b: seq<Byte>, i: nat)
    requires 2 * i + 1 < |b|
    ensures |Words(b)| == |b| / 2 && Words(b)[i] == 256 * (b[2 * i] as int) + b[2 * i + 1] as int
  {
    SwapLoad(b[2 * i], b[2 * i + 1]);
    hide Swap;
  }

  lemma PrefixSum(ws: seq<Word16>, i: nat)
    requires i < |ws|
    ensures Sum(ws[..i + 1]) == Sum(ws[..i]) + ws[i]
  {
    assert ws[..i + 1][..i] == ws[..i];
  }

  /** The summing loop of both checksums: `count` words from the start of the buffer. */
  method SumWords(b: array<Byte>, count: nat) returns (cksum: int)
    requires 2 * count == b.Length && count < 32768
    ensures cksum == Sum(Words(b[..]))
  {
    ghost var ws := Words(b[..]);
    cksum := 0;
    var i := 0;
    while i < count
      invariant 0 <= i <= count && cksum == Sum(ws[..i])
    {
      var word := Load(b[2 * i], b[2 * i + 1]);
      SwapLoad(b[2 * i], b[2 * i + 1]);
      PrefixSum(ws, i);
      assert ws[i] == WordAt(b[..], i);
      cksum := cksum + Swap(word);
      i := i + 1;
    }
    assert ws[..count] == ws;
  }

  method Ipcksum(header: array<Byte>) returns (cksum: Word16)
    requires header.Length == 20
    ensures cksum == IpFold(Sum(Words(header[..])))
    ensures cksum == 0 <==> IpAccepts(Words(header[..]))
  {
    hide Sum, Words;
    var sum := SumWords(header, 10);
    sum := sum + sum / B16;
    sum := 65535 - sum % B16;
    if sum == 65535 { sum := 0; }
    cksum := sum;
  }

  lemma BufferVerdict(b: seq<Byte>)
    requires |b| < 65536
    ensures FoldOnce(Sum(Words(b))) == 0 <==> RfcValid(Words(b))
  {
    var ws := Words(b);
    assert |ws| < 32768;
    hide Words;
    IcmpAcceptsExact(ws);
  }

  method IcmpCksum(buf: array<Byte>) returns (cksum: Word16)
    requires buf.Length % 2 == 0 && buf.Length < 65536
    ensures cksum == FoldOnce(Sum(Words(buf[..])))
    ensures cksum == 0 <==> RfcValid(Words(buf[..]))
  {
    hide Sum, Words, RfcValid;
    BufferVerdict(buf[..]);
    var sum := SumWords(buf, buf.Length / 2);
    cksum := 65535 - (sum + sum / B16) % B16;
  }

  /** Store a 16-bit value in network byte order. */
  method Store(b: array<Byte>, k: nat, v: Word16)
    requires 2 * k + 1 < b.Length
    modifies b
    ensures Words(b[..]) == Words(old(b[..]))[k := v]
  {
    var word := Swap(v);
    b[2 * k], b[2 * k + 1] := word % 256, word / 256;
    SwapBytes(v);
    ghost var ws, ws' := Words(old(b[..])), Words(b[..]);
    forall i | 0 <= i < |ws|
      ensures ws'[i] == ws[k := v][i]
    {
      assert i != k ==> b[2 * i] == old(b[2 * i]) && b[2 * i + 1] == old(b[2 * i + 1]);
    }
  }

  lemma SwapBytes(v: Word16)
    ensures 256 * (Swap(v) % 256) + Swap(v) / 256 == v
  {
  }

  /** `ip_out`: the header it leaves passes the check of every receiver running `ip_in`. */
  method StampIp(header: array<Byte>)
    requires header.Length == 20
    modifies header
    ensures Words(header[..]) == IpStamp(Words(old(header[..])), 5)
    ensures IpAccepts(Words(header[..]))
  {
    ghost var ws := Words(header[..]);
    hide IpFold, Sum, Words;
    Store(header, 5, 0);
    var cksum := Ipcksum(header);
    Store(header, 5, cksum);
    IpStampAccepted(ws, 5);
  }

  method StampIcmp(buf: array<Byte>)
    requires 4 <= buf.Length < 65536 && buf.Length % 2 == 0
    modifies buf
    ensures Words(buf[..]) == IcmpStamp(Words(old(buf[..])), 1)
  {
    Store(buf, 1, 0);
    var cksum := IcmpCksum(buf);
    Store(buf, 1, cksum);
  }
}
