/**
 The free memory list as a sequence of blocks, and the set of bytes it denotes.  A
 well-formed list is sorted by address, 8-byte granular, without empty blocks and fully
 coalesced; such a list is the only one for its set of bytes (`Canonical`), which turns
 byte accounting into exact round trips.
 */
module FreeList {
  import opened Wrappers

  const WORD := 0x1_0000_0000
  const MAXADDR := 0x0100_0000
  const MINSTK := 400

  datatype Block = Block(addr: int, len: int)

  function Top(b: Block): int { b.addr + b.len }

  /** `roundmb` on a 32-bit operand: the addition may wrap. */
  function RoundMb(n: int): int { (n + 7) % WORD / 8 * 8 }

  /** A block is 8-byte granular, not empty, and inside the address space. */
  predicate Sound(b: Block) {
    0 < b.addr && 0 < b.len && b.addr % 8 == 0 && b.len % 8 == 0 && Top(b) <= MAXADDR
  }

  /** A gap of at least one byte separates consecutive blocks. */
  ghost predicate WellFormed(l: seq<Block>) {
    && (forall i :: 0 <= i < |l| ==> Sound(l[i]))
    && (forall i, j :: 0 <= i < j < |l| ==> Top(l[i]) < l[j].addr)
  }

  predicate InBlock(b: Block, x: int) { b.addr <= x < Top(b) }

  ghost predicate IsFree(l: seq<Block>, x: int) { exists i :: 0 <= i < |l| && InBlock(l[i], x) }

  function Total(l: seq<Block>): int { if l == [] then 0 else l[0].len + Total(l[1..]) }

  // ---- allocation ------------------------------------------------------------------

  function FirstFit(l: seq<Block>, n: int): (i: nat)
    ensures i <= |l|
    ensures forall j :: 0 <= j < i ==> l[j].len < n
    ensures i < |l| ==> l[i].len >= n
  {
    if l == [] || l[0].len >= n then 0
    else
      var i := FirstFit(l[1..], n);
      assert forall j :: 0 < j < i + 1 ==> l[j] == l[1..][j - 1];
      i + 1
  }

  function LastFit(l: seq<Block>, n: int): (i: nat)
    ensures i <= |l|
    ensures i < |l| ==> l[i].len >= n && forall j :: i < j < |l| ==> l[j].len < n
    ensures i == |l| ==> forall j :: 0 <= j < |l| ==> l[j].len < n
  {
    if l == [] then 0
    else if l[|l| - 1].len >= n then |l| - 1
    else
      var i := LastFit(l[..|l| - 1], n);
      assert forall j :: 0 <= j < |l| - 1 ==> l[..|l| - 1][j] == l[j];
      if i < |l| - 1 then i else |l|
  }

  function Drop(l: seq<Block>, i: nat): seq<Block>
    requires i < |l|
  {
    l[..i] + l[i + 1..]
  }

  /** `getmem` for a rounded size: the low end of the first block that is large enough. */
  function Getmem(l: seq<Block>, n: int): (seq<Block>, Option<int>) {
    var i := FirstFit(l, n);
    if i == |l| then (l, None)
    else if l[i].len == n then (Drop(l, i), Some(l[i].addr))
    else (l[i := Block(l[i].addr + n, l[i].len - n)], Some(l[i].addr))
  }

  /** `getstk` for a rounded size: the high end of the last block that is large enough.  The
      result is the address of the highest word of the stack. */
  function Getstk(l: seq<Block>, n: int): (seq<Block>, Option<int>) {
    var i := LastFit(l, n);
    if i == |l| then (l, None)
    else if l[i].len == n then (Drop(l, i), Some(l[i].addr + n - 4))
    else (l[i := Block(l[i].addr, l[i].len - n)], Some(Top(l[i]) - 4))
  }

  // ---- release ---------------------------------------------------------------------

  /** The number of blocks below address `a`. */
  function Rank(l: seq<Block>, a: int): (i: nat)
    ensures i <= |l|
    ensures forall j :: 0 <= j < i ==> l[j].addr < a
    ensures i < |l| ==> l[i].addr >= a
  {
    if l == [] || l[0].addr >= a then 0
    else
      var i := Rank(l[1..], a);
      assert forall j :: 0 < j < i + 1 ==> l[j] == l[1..][j - 1];
      i + 1
  }

  /** The test of `freemem`, which looks at the two neighbours only. */
  predicate Clash(l: seq<Block>, a: int, n: int) {
    var i := Rank(l, a);
    (i > 0 && a < Top(l[i - 1])) || (i < |l| && a + n > l[i].addr)
  }

  /** Insert the range, merging it with the neighbours it touches. */
  function Release(l: seq<Block>, a: int, n: int): seq<Block> {
    var i := Rank(l, a);
    var below := i > 0 && Top(l[i - 1]) == a;
    var above := i < |l| && a + n == l[i].addr;
    if below && above then l[..i - 1] + [Block(l[i - 1].addr, l[i - 1].len + n + l[i].len)] + l[i + 1..]
    else if below then l[..i - 1] + [Block(l[i - 1].addr, l[i - 1].len + n)] + l[i..]
    else if above then l[..i] + [Block(a, n + l[i].len)] + l[i + 1..]
    else l[..i] + [Block(a, n)] + l[i..]
  }

  function Freemem(l: seq<Block>, a: int, n: int): (seq<Block>, bool) {
    if Clash(l, a, n) then (l, false) else (Release(l, a, n), true)
  }

  /** A range `freemem` may be given: aligned, inside the address space. */
  predicate GoodRange(a: int, n: int) { 0 < a && a % 8 == 0 && 0 < n && n % 8 == 0 && a + n <= MAXADDR }

  // ---- splitting a list at a position ----------------------------------------------

  lemma FreeConcat(a: seq<Block>, b: seq<Block>, x: int)
    ensures IsFree(a + b, x) <==> IsFree(a, x) || IsFree(b, x)
  {
    var l := a + b;
    if IsFree(a, x) {
      var i :| 0 <= i < |a| && InBlock(a[i], x);
      assert InBlock(l[i], x);
    }
    if IsFree(b, x) {
      var i :| 0 <= i < |b| && InBlock(b[i], x);
      assert InBlock(l[|a| + i], x);
    }
    if IsFree(l, x) {
      var i :| 0 <= i < |l| && InBlock(l[i], x);
      if i < |a| { assert InBlock(a[i], x); } else { assert InBlock(b[i - |a|], x); }
    }
  }

  lemma FreeOne(b: Block, x: int)
    ensures IsFree([b], x) <==> InBlock(b, x)
  {
    assert InBlock(b, x) ==> InBlock([b][0], x);
  }

  /** The bytes of a list around one of its blocks. */
  lemma FreeAround(l: seq<Block>, i: nat, x: int)
    requires i < |l|
    ensures IsFree(l, x) <==> IsFree(l[..i], x) || InBlock(l[i], x) || IsFree(l[i + 1..], x)
  {
    assert l == l[..i] + ([l[i]] + l[i + 1..]);
    FreeConcat(l[..i], [l[i]] + l[i + 1..], x);
    FreeConcat([l[i]], l[i + 1..], x);
    FreeOne(l[i], x);
  }

  lemma FreeAt(l: seq<Block>, i: nat, x: int)
    requires i <= |l|
    ensures IsFree(l, x) <==> IsFree(l[..i], x) || IsFree(l[i..], x)
  {
    assert l == l[..i] + l[i..];
    FreeConcat(l[..i], l[i..], x);
  }

  /** Bytes of the blocks before and after a position lie strictly below and above. */
  lemma Below(l: seq<Block>, i: nat, x: int)
    requires WellFormed(l) && i < |l|
    ensures IsFree(l[..i], x) ==> x < l[i].addr - 1
    ensures IsFree(l[i + 1..], x) ==> x > Top(l[i])
  {
    if IsFree(l[..i], x) {
      var j :| 0 <= j < i && InBlock(l[..i][j], x);
      assert Top(l[j]) < l[i].addr;
    }
    if IsFree(l[i + 1..], x) {
      var j :| 0 <= j < |l| - i - 1 && InBlock(l[i + 1..][j], x);
      assert Top(l[i]) < l[i + 1 + j].addr;
    }
  }

  lemma BelowRank(l: seq<Block>, a: int, x: int)
    requires WellFormed(l)
    ensures var i := Rank(l, a);
            && (IsFree(l[..i], x) ==> i > 0 && x < Top(l[i - 1]))
            && (IsFree(l[i..], x) ==> i < |l| && x >= l[i].addr)
  {
    var i := Rank(l, a);
    if IsFree(l[..i], x) {
      var j :| 0 <= j < i && InBlock(l[..i][j], x);
      if j < i - 1 { assert Top(l[j]) < l[i - 1].addr; }
    }
    if IsFree(l[i..], x) {
      var j :| 0 <= j < |l| - i && InBlock(l[i..][j], x);
      if j > 0 { assert Top(l[i]) < l[i + j].addr; }
    }
  }

  // ---- canonical representation ----------------------------------------------------

  lemma FirstByte(l: seq<Block>, x: int)
    requires WellFormed(l) && l != []
    ensures IsFree(l, l[0].addr) && !IsFree(l, Top(l[0]))
    ensures x < l[0].addr ==> !IsFree(l, x)
    ensures l[0].addr <= x < Top(l[0]) ==> IsFree(l, x)
  {
    assert InBlock(l[0], l[0].addr);
    FreeAround(l, 0, Top(l[0]));
    Below(l, 0, Top(l[0]));
    FreeAround(l, 0, x);
    Below(l, 0, x);
    assert l[..0] == [];
  }

  lemma NoBytes(l: seq<Block>)
    requires WellFormed(l)
    ensures l == [] <==> forall x :: !IsFree(l, x)
  {
    if l != [] { FirstByte(l, 0); }
  }

  /** Two well-formed lists with the same bytes are the same list. */
  lemma {:induction false} Canonical(l: seq<Block>, m: seq<Block>)
    requires WellFormed(l) && WellFormed(m) && (forall x :: IsFree(l, x) <==> IsFree(m, x))
    ensures l == m
    decreases |l|
  {
    NoBytes(l);
    NoBytes(m);
    hide IsFree, WellFormed;
    if l != [] && m != [] {
      FirstByte(l, m[0].addr);
      FirstByte(m, l[0].addr);
      assert l[0].addr == m[0].addr;
      FirstByte(l, Top(m[0]));
      FirstByte(m, Top(l[0]));
      assert Top(l[0]) == Top(m[0]);
      assert l[0] == m[0];
      forall x
        ensures IsFree(l[1..], x) <==> IsFree(m[1..], x)
      {
        TailBytes(l, x);
        TailBytes(m, x);
      }
      TailWellFormed(l);
      TailWellFormed(m);
      Canonical(l[1..], m[1..]);
      assert l == [l[0]] + l[1..] && m == [m[0]] + m[1..];
    }
  }

  lemma TailBytes(l: seq<Block>, x: int)
    requires WellFormed(l) && l != []
    ensures IsFree(l[1..], x) <==> IsFree(l, x) && x > Top(l[0])
  {
    FreeAround(l, 0, x);
    Below(l, 0, x);
    assert l[..0] == [];
  }

  lemma TailWellFormed(l: seq<Block>)
    requires WellFormed(l) && l != []
    ensures WellFormed(l[1..])
  {
  }

  // ---- totals ----------------------------------------------------------------------

  lemma {:induction false} TotalConcat(a: seq<Block>, b: seq<Block>)
    ensures Total(a + b) == Total(a) + Total(b)
    decreases |a|
  {
    if a == [] {
      assert a + b == b;
    } else {
      assert (a + b)[1..] == a[1..] + b;
      TotalConcat(a[1..], b);
    }
  }

  lemma TotalAround(l: seq<Block>, i: nat, mid: seq<Block>)
    requires i < |l|
    ensures Total(l[..i] + mid + l[i + 1..]) == Total(l) - l[i].len + Total(mid)
  {
    assert l == l[..i] + ([l[i]] + l[i + 1..]);
    TotalConcat(l[..i], [l[i]] + l[i + 1..]);
    TotalConcat([l[i]], l[i + 1..]);
    TotalConcat(l[..i] + mid, l[i + 1..]);
    TotalConcat(l[..i], mid);
    assert Total([l[i]]) == l[i].len + Total([l[i]][1..]);
  }
}
