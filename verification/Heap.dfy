/**
 The heap allocator as the kernel runs it: free blocks linked through their own first words,
 walked and relinked in place.  Every call is shown to do to the list of blocks exactly what
 the functions of `FreeList` say, and to keep the difference between `memlist.mlength` and
 the free bytes (the boot code never initialises that word, so only the difference is fixed).
 */
module Heap {
  import opened Wrappers
  import opened FreeList
  import opened Memory

  const NULL := 0
  /** The address of the list header, which lies outside the heap. */
  const MEMLIST := -1

  /** The two words at the start of a free block (or of the header). */
  datatype MemBlk = MemBlk(mnext: int, mlength: int)

  /** Truncation to a 32-bit word. */
  function U32(x: int): int { x % WORD }

  lemma U32Diff(x: int, t: int, n: int)
    ensures U32(U32(x - n) - (t - n)) == U32(x - t)
  {
  }

  type Words = map<int, MemBlk>

  // ---- the list a memory holds -----------------------------------------------------

  /** Blocks at distinct ascending addresses; weaker than `WellFormed`. */
  ghost predicate Apart(l: seq<Block>) {
    && (forall i {:trigger l[i]} :: 0 <= i < |l| ==> 0 < l[i].addr)
    && (forall i, j {:trigger l[i], l[j]} :: 0 <= i < j < |l| ==> l[i].addr < l[j].addr)
  }

  /** The node in front of position `i`. */
  function Node(l: seq<Block>, i: nat): int
    requires i <= |l|
  {
    if i == 0 then MEMLIST else l[i - 1].addr
  }

  function Next(l: seq<Block>, i: nat): int { if i < |l| then l[i].addr else NULL }

  ghost predicate Cell(mem: Words, l: seq<Block>, i: nat)
    requires i < |l|
  {
    l[i].addr in mem && mem[l[i].addr] == MemBlk(Next(l, i + 1), l[i].len)
  }

  ghost predicate Represents(mem: Words, l: seq<Block>) {
    && MEMLIST in mem && mem[MEMLIST].mnext == Next(l, 0)
    && forall i: nat {:trigger Cell(mem, l, i)} :: i < |l| ==> Cell(mem, l, i)
  }

  function SetNext(mem: Words, p: int, q: int): Words
    requires p in mem
  {
    mem[p := MemBlk(q, mem[p].mlength)]
  }

  function SetLength(mem: Words, p: int, n: int): Words
    requires p in mem
  {
    mem[p := MemBlk(mem[p].mnext, n)]
  }

  lemma WellFormedApart(l: seq<Block>)
    requires WellFormed(l)
    ensures Apart(l)
  {
    forall i, j | 0 <= i < j < |l|
      ensures l[i].addr < l[j].addr
    {
      assert Top(l[i]) < l[j].addr && Sound(l[i]);
    }
  }

  lemma ApartAt(l: seq<Block>, i: nat, j: nat)
    requires Apart(l) && i < |l| && j < |l| && i != j
    ensures 0 < l[i].addr != l[j].addr && 0 < l[j].addr
  {
    if i < j { assert l[i].addr < l[j].addr; } else { assert l[j].addr < l[i].addr; }
  }

  lemma NodeApart(l: seq<Block>, i: nat, j: nat)
    requires Apart(l) && i <= |l| && j < |l| && i != j + 1
    ensures l[j].addr != Node(l, i) && l[j].addr != MEMLIST
  {
    if i > 0 { ApartAt(l, i - 1, j); }
  }

  lemma NullIsEnd(l: seq<Block>, i: nat)
    requires WellFormed(l) && i <= |l|
    ensures Next(l, i) == NULL <==> i == |l|
  {
  }

  /** The header's length word is no part of the list. */
  lemma HeaderLength(mem: Words, l: seq<Block>, n: int)
    requires Apart(l) && Represents(mem, l)
    ensures Represents(SetLength(mem, MEMLIST, n), l)
  {
    forall j: nat | j < |l|
      ensures Cell(SetLength(mem, MEMLIST, n), l, j)
    {
      assert Cell(mem, l, j);
    }
  }

  lemma NodeIn(mem: Words, l: seq<Block>, i: nat)
    requires Represents(mem, l) && i <= |l|
    ensures Node(l, i) in mem && mem[Node(l, i)].mnext == Next(l, i)
  {
    if i > 0 { assert Cell(mem, l, i - 1); }
  }

  lemma Unlink(mem: Words, l: seq<Block>, i: nat)
    requires Apart(l) && Represents(mem, l) && i < |l| && Node(l, i) in mem
    ensures Represents(SetNext(mem, Node(l, i), Next(l, i + 1)), Drop(l, i))
  {
    var m, w := Drop(l, i), SetNext(mem, Node(l, i), Next(l, i + 1));
    forall j: nat | j < |m|
      ensures Cell(w, m, j)
    {
      var k := if j < i then j else j + 1;
      assert m[j] == l[k] && Cell(mem, l, k);
      hide Apart, Represents;
      if k + 1 != i { NodeApart(l, i, k); }
    }
  }

  lemma Resize(mem: Words, l: seq<Block>, i: nat, n: int)
    requires Apart(l) && Represents(mem, l) && i < |l| && l[i].addr in mem
    ensures Represents(SetLength(mem, l[i].addr, n), l[i := Block(l[i].addr, n)])
  {
    assert l[i].addr != MEMLIST;
    var m, w := l[i := Block(l[i].addr, n)], SetLength(mem, l[i].addr, n);
    forall j: nat | j < |m|
      ensures Cell(w, m, j)
    {
      assert Cell(mem, l, j);
      if j != i { ApartAt(l, i, j); }
    }
  }

  /** A block's place is taken by another one. */
  lemma Replace(mem: Words, l: seq<Block>, i: nat, b: Block)
    requires Apart(l) && Represents(mem, l) && i < |l| && Node(l, i) in mem && Apart(l[i := b])
    ensures Represents(SetNext(mem, Node(l, i), b.addr)[b.addr := MemBlk(Next(l, i + 1), b.len)], l[i := b])
  {
    var m, w := l[i := b], SetNext(mem, Node(l, i), b.addr)[b.addr := MemBlk(Next(l, i + 1), b.len)];
    assert m[i] == b && 0 < b.addr;
    forall j: nat | j < |m|
      ensures Cell(w, m, j)
    {
      assert Cell(mem, l, j);
      hide Apart, Represents;
      if j != i { ApartAt(m, i, j); }
      if j + 1 != i { NodeApart(l, i, j); }
    }
  }

  lemma Link(mem: Words, l: seq<Block>, i: nat, b: Block)
    requires Represents(mem, l) && i <= |l| && Node(l, i) in mem && Apart(l[..i] + [b] + l[i..])
    ensures Represents(SetNext(mem[b.addr := MemBlk(Next(l, i), b.len)], Node(l, i), b.addr), l[..i] + [b] + l[i..])
  {
    var m, w := l[..i] + [b] + l[i..], SetNext(mem[b.addr := MemBlk(Next(l, i), b.len)], Node(l, i), b.addr);
    assert m[i] == b && 0 < b.addr;
    assert Node(l, i) == Node(m, i);
    forall j: nat | j < |m|
      ensures Cell(w, m, j)
    {
      if j != i {
        var k := if j < i then j else j - 1;
        assert m[j] == l[k] && Cell(mem, l, k);
        hide Apart, Represents;
        ApartAt(m, i, j);
        if j + 1 != i { NodeApart(m, i, j); }
      } else {
        NodeApart(m, i, i);
      }
    }
  }

  /** A block swallows its successor. */
  lemma Merge(mem: Words, l: seq<Block>, i: nat)
    requires Apart(l) && Represents(mem, l) && i + 1 < |l| && l[i].addr in mem && l[i + 1].addr in mem
    ensures Represents(mem[l[i].addr := MemBlk(mem[l[i + 1].addr].mnext, l[i].len + mem[l[i + 1].addr].mlength)],
                       l[..i] + [Block(l[i].addr, l[i].len + l[i + 1].len)] + l[i + 2..])
  {
    var m := l[..i] + [Block(l[i].addr, l[i].len + l[i + 1].len)] + l[i + 2..];
    var w := mem[l[i].addr := MemBlk(mem[l[i + 1].addr].mnext, l[i].len + mem[l[i + 1].addr].mlength)];
    assert 0 < l[i].addr;
    assert Cell(mem, l, i + 1);
    forall j: nat | j < |m|
      ensures Cell(w, m, j)
    {
      if j != i {
        var k := if j < i then j else j + 1;
        assert m[j] == l[k] && Cell(mem, l, k);
        assert Next(m, j + 1) == Next(l, k + 1);
        hide Apart, Represents;
        ApartAt(l, i, k);
      } else {
        assert Next(m, j + 1) == Next(l, i + 2);
      }
    }
  }

  // ---- freemem on the list, in the two stages the code uses ------------------------

  /** Stage one: extend the block below, or link in a new one. */
  function Placed(l: seq<Block>, a: int, n: int): seq<Block> {
    var i := Rank(l, a);
    if i > 0 && Top(l[i - 1]) == a then l[i - 1 := Block(l[i - 1].addr, l[i - 1].len + n)]
    else l[..i] + [Block(a, n)] + l[i..]
  }

  /** The position of the block that stage one leaves the range in. */
  function Place(l: seq<Block>, a: int): nat {
    var i := Rank(l, a);
    if i > 0 && Top(l[i - 1]) == a then i - 1 else i
  }

  /** A new block between its neighbours. */
  lemma InsertApart(l: seq<Block>, i: nat, b: Block)
    requires Apart(l) && i <= |l| && 0 < b.addr && (i > 0 ==> l[i - 1].addr < b.addr)
    requires i < |l| ==> b.addr < l[i].addr
    ensures Apart(l[..i] + [b] + l[i..])
  {
    var m := l[..i] + [b] + l[i..];
    forall j, k | 0 <= j < k < |m|
      ensures m[j].addr < m[k].addr
    {
      var x, y := if j < i then j else j - 1, if k < i then k else k - 1;
      assert j != i ==> m[j] == l[x];
      assert k != i ==> m[k] == l[y];
      if j == i && k > i + 1 {
        assert l[i].addr < l[y].addr;
      } else if k == i && j < i - 1 {
        assert l[x].addr < l[i - 1].addr;
      }
    }
  }

  lemma ResizeApart(l: seq<Block>, i: nat, n: int)
    requires Apart(l) && i < |l|
    ensures Apart(l[i := Block(l[i].addr, n)])
  {
  }

  /** Stage one found the range on top of block `i - 1`. */
  lemma PlacedBelow(l: seq<Block>, a: int, n: int, i: nat)
    requires Apart(l) && i == Rank(l, a) && i > 0 && Top(l[i - 1]) == a
    ensures var b := Block(l[i - 1].addr, l[i - 1].len + n);
            Place(l, a) == i - 1 && Placed(l, a, n) == l[..i - 1] + [b] + l[i..] && Apart(l[..i - 1] + [b] + l[i..])
  {
    var b := Block(l[i - 1].addr, l[i - 1].len + n);
    assert l[i - 1 := b] == l[..i - 1] + [b] + l[i..];
    ResizeApart(l, i - 1, l[i - 1].len + n);
  }

  /** What the two stages need to know of the intermediate list. */
  ghost predicate GoodPlace(l: seq<Block>, a: int, n: int) {
    var m, k := Placed(l, a, n), Place(l, a);
    && k < |m| && Apart(m) && m[k].len > 0 && Top(m[k]) == a + n
    && Next(m, k + 1) == Next(l, Rank(l, a))
  }

  lemma PlacedApart(l: seq<Block>, a: int, n: int)
    requires WellFormed(l) && GoodRange(a, n) && !Clash(l, a, n)
    ensures GoodPlace(l, a, n)
  {
    RangePositive(a, n);
    WellFormedApart(l);
    var i := Rank(l, a);
    if i > 0 { Longer(l, i - 1); }
    if i > 0 && Top(l[i - 1]) == a {
      PlacedBelow(l, a, n, i);
      hide Apart, WellFormed, Rank, GoodRange, Clash, Placed, Place;
      Around(l[..i - 1], Block(l[i - 1].addr, l[i - 1].len + n), l[i..]);
    } else {
      InsertApart(l, i, Block(a, n));
      assert Placed(l, a, n) == l[..i] + [Block(a, n)] + l[i..] && Place(l, a) == i;
      hide Apart, WellFormed, Rank, GoodRange, Clash, Placed, Place;
      Around(l[..i], Block(a, n), l[i..]);
    }
  }

  lemma RangePositive(a: int, n: int)
    requires GoodRange(a, n)
    ensures 0 < a && 0 < n && a + n <= MAXADDR
  {
  }

  /** A sequence around its element `k`. */
  lemma Around(p: seq<Block>, b: Block, q: seq<Block>)
    ensures var m := p + [b] + q; m[..|p|] == p && m[|p|] == b && m[|p| + 1..] == q
    ensures q != [] ==> (p + [b] + q)[|p| + 2..] == q[1..]
  {
  }

  /** Stage two: join block `k` with its successor when the range ends there. */
  function Joined(m: seq<Block>, k: nat, end: int): seq<Block>
    requires k < |m|
  {
    if k + 1 < |m| && end == m[k + 1].addr then m[..k] + [Block(m[k].addr, m[k].len + m[k + 1].len)] + m[k + 2..] else m
  }

  lemma JoinedParts(p: seq<Block>, b: Block, q: seq<Block>, end: int)
    ensures Joined(p + [b] + q, |p|, end) ==
            if q != [] && end == q[0].addr then p + [Block(b.addr, b.len + q[0].len)] + q[1..] else p + [b] + q
  {
    Around(p, b, q);
  }

  lemma ReleaseBelowCase(l: seq<Block>, a: int, n: int, i: nat)
    requires i == Rank(l, a) && i > 0 && Top(l[i - 1]) == a
    ensures var b := Block(l[i - 1].addr, l[i - 1].len + n);
            Release(l, a, n) == Joined(l[..i - 1] + [b] + l[i..], i - 1, a + n)
  {
    hide Rank, Joined;
    JoinedParts(l[..i - 1], Block(l[i - 1].addr, l[i - 1].len + n), l[i..], a + n);
    if i < |l| {
      assert l[i..] != [] && l[i..][0] == l[i] && l[i..][1..] == l[i + 1..];
    } else {
      assert l[i..] == [];
    }
  }

  lemma ReleaseNewCase(l: seq<Block>, a: int, n: int, i: nat)
    requires i == Rank(l, a) && !(i > 0 && Top(l[i - 1]) == a)
    ensures Release(l, a, n) == Joined(l[..i] + [Block(a, n)] + l[i..], i, a + n)
  {
    hide Rank, Joined;
    JoinedParts(l[..i], Block(a, n), l[i..], a + n);
    if i < |l| {
      assert l[i..] != [] && l[i..][0] == l[i] && l[i..][1..] == l[i + 1..];
    } else {
      assert l[i..] == [];
    }
  }

  /** Together the stages are `Release`. */
  lemma TwoStages(l: seq<Block>, a: int, n: int)
    requires Apart(l) && Place(l, a) < |Placed(l, a, n)|
    ensures Release(l, a, n) == Joined(Placed(l, a, n), Place(l, a), a + n)
  {
    hide Rank, Apart, Joined, Release;
    var i := Rank(l, a);
    if i > 0 && Top(l[i - 1]) == a {
      PlacedBelow(l, a, n, i);
      ReleaseBelowCase(l, a, n, i);
    } else {
      ReleaseNewCase(l, a, n, i);
    }
  }

  // ---- the searches are determined by what they find -------------------------------

  lemma FirstFitIs(l: seq<Block>, n: int, i: nat)
    requires i <= |l| && (forall j :: 0 <= j < i ==> l[j].len < n) && (i < |l| ==> l[i].len >= n)
    ensures i == FirstFit(l, n)
  {
  }

  lemma LastFitIs(l: seq<Block>, n: int, i: nat)
    requires i <= |l| && (i < |l| ==> l[i].len >= n && forall j :: i < j < |l| ==> l[j].len < n)
    requires i == |l| ==> forall j :: 0 <= j < |l| ==> l[j].len < n
    ensures i == LastFit(l, n)
  {
  }

  lemma RankIs(l: seq<Block>, a: int, i: nat)
    requires i <= |l| && (forall j :: 0 <= j < i ==> l[j].addr < a) && (i < |l| ==> l[i].addr >= a)
    ensures i == Rank(l, a)
  {
  }

  // ---- what the calls keep ---------------------------------------------------------

  lemma GetmemKeeps(l: seq<Block>, nbytes: int)
    requires WellFormed(l) && 0 < nbytes < WORD
    ensures var (m, r) := FreeList.Getmem(l, RoundMb(nbytes));
            WellFormed(m) && Total(m) == Total(l) - if r.Some? then RoundMb(nbytes) else 0
  {
    RoundMbFacts(nbytes);
    if RoundMb(nbytes) == 0 {
      if l != [] { GetmemOverflow(l, nbytes); }
    } else {
      GetmemBytes(l, RoundMb(nbytes));
    }
  }

  lemma GetstkKeeps(l: seq<Block>, nbytes: int)
    requires WellFormed(l) && 0 < nbytes < WORD
    ensures var (m, r) := FreeList.Getstk(l, RoundMb(nbytes));
            WellFormed(m) && Total(m) == Total(l) - if r.Some? then RoundMb(nbytes) else 0
  {
    RoundMbFacts(nbytes);
    if RoundMb(nbytes) == 0 {
      var i := LastFit(l, 0);
      if i < |l| { assert l[i := Block(l[i].addr, l[i].len - 0)] == l; }
    } else {
      GetstkBytes(l, RoundMb(nbytes));
    }
  }

  // ---- boot ------------------------------------------------------------------------

  /** `truncmb` on a positive size. */
  function TruncMb(n: int): int { n / 8 * 8 }

  /** The two blocks around the hole are sound and apart. */
  lemma BootSizes(end: int, nullstk: int)
    requires 0 < end <= 640 * 1024 - 16 && 0 < nullstk <= MAXADDR - 1024 * 1024 - 8
    ensures Sound(Block(RoundMb(end), TruncMb(640 * 1024 - end - 4)))
    ensures RoundMb(end) + TruncMb(640 * 1024 - end - 4) <= 640 * 1024 && RoundMb(end) > 0
    ensures Sound(Block(1024 * 1024, TruncMb(MAXADDR - 1024 * 1024 - nullstk)))
    ensures 1024 * 1024 + TruncMb(MAXADDR - 1024 * 1024 - nullstk) <= MAXADDR - nullstk
    ensures 640 * 1024 - end - 12 < TruncMb(640 * 1024 - end - 4)
    ensures MAXADDR - 1024 * 1024 - nullstk - 8 < TruncMb(MAXADDR - 1024 * 1024 - nullstk)
  {
    var low := 640 * 1024 - end - 4;
    RoundMbFacts(end);
    hide RoundMb;
    TruncFacts(low);
    TruncFacts(MAXADDR - 1024 * 1024 - nullstk);
    hide TruncMb;
    Sum8(RoundMb(end), TruncMb(low));
    Below8(RoundMb(end) + TruncMb(low), 80 * 1024);
  }

  lemma TruncFacts(n: int)
    requires n >= 8
    ensures TruncMb(n) % 8 == 0 && 0 < n - 7 <= TruncMb(n) <= n
  {
  }

  lemma Below8(x: int, k: int)
    requires x % 8 == 0 && x < 8 * k + 8
    ensures x <= 8 * k
  {
  }

  // ---- the allocator ---------------------------------------------------------------

  class Heap {
    var mem: Words
    const minheap: int
    const maxheap: int
    ghost var free: seq<Block>

    ghost predicate Valid()
      reads this
    {
      Represents(mem, free) && WellFormed(free)
    }

    /** What the header's length word counts beyond the free bytes, as a 32-bit number. */
    ghost function Surplus(): int
      reads this
      requires Valid()
    {
      U32(mem[MEMLIST].mlength - Total(free))
    }

    /** Boot: a block below the hole between 640K and 1M and one above it.  `junk` is whatever
        the header's length word holds. */
    constructor (end: int, nullstk: int, junk: int)
      requires 0 < end <= 640 * 1024 - 16 && 0 < nullstk <= MAXADDR - 1024 * 1024 - 8
      ensures Valid() && minheap == end && maxheap == MAXADDR
      ensures |free| == 2 && free[0].addr == RoundMb(end) && free[1].addr == 1024 * 1024
      ensures Top(free[0]) <= 640 * 1024 && Top(free[1]) <= MAXADDR - nullstk
      ensures 640 * 1024 - end - 12 < free[0].len && MAXADDR - 1024 * 1024 - nullstk - 8 < free[1].len
    {
      minheap := end;
      maxheap := MAXADDR;
      BootSizes(end, nullstk);
      hide RoundMb, TruncMb, Sound;
      var memptr := RoundMb(end);
      var low, high := TruncMb(640 * 1024 - end - 4), TruncMb(MAXADDR - 1024 * 1024 - nullstk);
      mem := map[MEMLIST := MemBlk(memptr, junk), memptr := MemBlk(1024 * 1024, low),
                 1024 * 1024 := MemBlk(NULL, high)];
      free := [Block(memptr, low), Block(1024 * 1024, high)];
    }

    /** The first-fit walk. */
    method FindFirst(n: int) returns (prev: int, curr: int, ghost i: nat)
      requires Valid()
      ensures i == FirstFit(free, n) && prev == Node(free, i) && curr == Next(free, i)
    {
      prev, curr, i := MEMLIST, mem[MEMLIST].mnext, 0;
      while curr != NULL && mem[curr].mlength < n
        invariant i <= |free| && prev == Node(free, i) && curr == Next(free, i)
        invariant curr != NULL ==> Cell(mem, free, i)
        invariant forall j :: 0 <= j < i ==> free[j].len < n
        decreases |free| - i
      {
        prev, curr, i := curr, mem[curr].mnext, i + 1;
        assert i < |free| ==> Cell(mem, free, i);
      }
      FirstFitIs(free, n, i);
    }

    /** The last-fit scan over the whole list. */
    method FindLast(n: int) returns (fitsprev: int, fits: int, ghost i: nat)
      requires Valid()
      ensures i == LastFit(free, n) && fits == Next(free, i) && fitsprev == if i < |free| then Node(free, i) else NULL
    {
      hide WellFormed, LastFit;
      var prev, curr := MEMLIST, mem[MEMLIST].mnext;
      NullIsEnd(free, 0);
      fits, fitsprev, i := NULL, NULL, |free|;
      ghost var k: nat := 0;
      while curr != NULL
        invariant k <= |free| && prev == Node(free, k) && curr == Next(free, k)
        invariant if curr == NULL then k == |free| else k < |free| && Cell(mem, free, k)
        invariant i < k || i == |free|
        invariant fits == Next(free, i) && fitsprev == if i < |free| then Node(free, i) else NULL
        invariant i < k ==> free[i].len >= n && forall j :: i < j < k ==> free[j].len < n
        invariant i == |free| ==> forall j :: 0 <= j < k ==> free[j].len < n
        decreases |free| - k
      {
        if mem[curr].mlength >= n {
          fits, fitsprev, i := curr, prev, k;
        }
        prev, curr, k := curr, mem[curr].mnext, k + 1;
        NullIsEnd(free, k);
        assert k < |free| ==> Cell(mem, free, k);
      }
      LastFitIs(free, n, i);
    }

    /** The walk of `freemem` to the neighbours of an address. */
    method FindPlace(a: int) returns (prev: int, next: int, ghost i: nat)
      requires Valid()
      ensures i == Rank(free, a) && prev == Node(free, i) && next == Next(free, i)
    {
      prev, next, i := MEMLIST, mem[MEMLIST].mnext, 0;
      while next != NULL && next < a
        invariant i <= |free| && prev == Node(free, i) && next == Next(free, i)
        invariant next != NULL ==> Cell(mem, free, i)
        invariant forall j :: 0 <= j < i ==> free[j].addr < a
        decreases |free| - i
      {
        prev, next, i := next, mem[next].mnext, i + 1;
        assert i < |free| ==> Cell(mem, free, i);
      }
      RankIs(free, a, i);
    }

    /** Take the low end of the block `curr`, which follows `prev`. */
    method CarveLow(prev: int, curr: int, n: int, ghost i: nat)
      requires Valid() && i < |free| && prev == Node(free, i) && curr == free[i].addr
      requires free[i].len != n ==> WellFormed(free[i := Block(free[i].addr + n, free[i].len - n)])
      modifies this
      ensures Represents(mem, free) && mem[MEMLIST].mlength == old(mem)[MEMLIST].mlength
      ensures var l := old(free);
              free == if l[i].len == n then Drop(l, i) else l[i := Block(l[i].addr + n, l[i].len - n)]
    {
      ghost var l, b := free, Block(free[i].addr + n, free[i].len - n);
      WellFormedApart(l);
      NodeIn(mem, l, i);
      assert Cell(mem, l, i);
      if mem[curr].mlength == n {
        Unlink(mem, l, i);
        mem := SetNext(mem, prev, mem[curr].mnext);
        free := Drop(l, i);
      } else {
        WellFormedApart(l[i := b]);
        assert l[i := b][i].addr > 0;
        hide WellFormed;
        Replace(mem, l, i, b);
        var leftover := curr + n;
        mem := SetNext(mem, prev, leftover)[leftover := MemBlk(mem[curr].mnext, mem[curr].mlength - n)];
        free := l[i := b];
      }
    }

    /** Take the high end of the block `fits`; the result is where the taken range starts. */
    method CarveHigh(fitsprev: int, fits: int, n: int, ghost i: nat) returns (start: int)
      requires Valid() && i < |free| && fitsprev == Node(free, i) && fits == free[i].addr
      modifies this
      ensures Represents(mem, free) && mem[MEMLIST].mlength == old(mem)[MEMLIST].mlength
      ensures var l := old(free);
              && free == (if l[i].len == n then Drop(l, i) else l[i := Block(l[i].addr, l[i].len - n)])
              && start == Top(l[i]) - n
    {
      ghost var l := free;
      WellFormedApart(l);
      NodeIn(mem, l, i);
      assert Cell(mem, l, i);
      start := fits;
      if n == mem[fits].mlength {
        Unlink(mem, l, i);
        mem := SetNext(mem, fitsprev, mem[fits].mnext);
        free := Drop(l, i);
      } else {
        assert fits > 0;
        hide WellFormed;
        Resize(mem, l, i, l[i].len - n);
        mem := SetLength(mem, fits, mem[fits].mlength - n);
        free := l[i := Block(l[i].addr, l[i].len - n)];
        start := fits + mem[fits].mlength;
      }
    }

    /** First fit, from the low end of the block. */
    method Getmem(nbytes: int) returns (r: Option<int>)
      requires Valid() && 0 <= nbytes < WORD
      modifies this
      ensures Valid() && Surplus() == old(Surplus())
      ensures if nbytes == 0 then free == old(free) && r == None
              else (free, r) == FreeList.Getmem(old(free), RoundMb(nbytes))
    {
      hide RoundMb, WellFormed, Represents, Total, FirstFit, U32;
      if nbytes == 0 { return None; }
      GetmemKeeps(free, nbytes);
      var n := RoundMb(nbytes);
      var prev, curr, i := FindFirst(n);
      NullIsEnd(free, i);
      if curr == NULL { return None; }
      ghost var total := Total(free);
      CarveLow(prev, curr, n, i);
      Uncount(n, total);
      r := Some(curr);
    }

    /** Last fit, from the high end of the block. */
    method Getstk(nbytes: int) returns (r: Option<int>)
      requires Valid() && 0 <= nbytes < WORD
      modifies this
      ensures Valid() && Surplus() == old(Surplus())
      ensures if nbytes == 0 then free == old(free) && r == None
              else (free, r) == FreeList.Getstk(old(free), RoundMb(nbytes))
    {
      hide RoundMb, WellFormed, Represents, Total, LastFit, U32;
      if nbytes == 0 { return None; }
      GetstkKeeps(free, nbytes);
      var n := RoundMb(nbytes);
      var fitsprev, fits, i := FindLast(n);
      NullIsEnd(free, i);
      if fits == NULL { return None; }
      ghost var total := Total(free);
      fits := CarveHigh(fitsprev, fits, n, i);
      Uncount(n, total);
      r := Some(fits + n - 4);
    }

    /** Take `n` bytes off the header's count, now that the blocks hold `n` less than `total`. */
    method Uncount(n: int, ghost total: int)
      requires Represents(mem, free) && WellFormed(free) && Total(free) == total - n
      modifies this`mem
      ensures Valid() && Surplus() == U32(old(mem)[MEMLIST].mlength - total)
    {
      hide U32, WellFormed, Total;
      WellFormedApart(free);
      HeaderLength(mem, free, U32(mem[MEMLIST].mlength - n));
      U32Diff(mem[MEMLIST].mlength, total, n);
      mem := SetLength(mem, MEMLIST, U32(mem[MEMLIST].mlength - n));
    }

    /** Stage one of a release: extend the block below, or link in a new one. */
    method PlaceRange(a: int, n: int, prev: int, next: int) returns (block: int)
      requires Valid() && GoodRange(a, n) && !Clash(free, a, n)
      requires prev == Node(free, Rank(free, a)) && next == Next(free, Rank(free, a))
      modifies this
      ensures Represents(mem, free) && mem[MEMLIST].mlength == old(mem)[MEMLIST].mlength
      ensures free == Placed(old(free), a, n)
      ensures Apart(free) && Place(old(free), a) < |free| && block == free[Place(old(free), a)].addr
    {
      ghost var l, i := free, Rank(free, a);
      WellFormedApart(l);
      PlacedApart(l, a, n);
      NodeIn(mem, l, i);
      RangePositive(a, n);
      hide GoodRange, Rank, WellFormed;
      if i > 0 { assert Cell(mem, l, i - 1) && l[i - 1].addr > 0; }
      if prev != MEMLIST && prev + mem[prev].mlength == a {
        Resize(mem, l, i - 1, l[i - 1].len + n);
        mem := SetLength(mem, prev, mem[prev].mlength + n);
        block := prev;
      } else {
        Link(mem, l, i, Block(a, n));
        mem := SetNext(mem[a := MemBlk(next, n)], prev, a);
        block := a;
      }
      free := Placed(l, a, n);
    }

    /** Stage two: join the block with its successor when they touch. */
    method JoinNext(block: int, next: int, ghost k: nat)
      requires Represents(mem, free) && Apart(free) && k < |free| && block == free[k].addr
      requires next == Next(free, k + 1) && free[k].len > 0
      modifies this
      ensures Represents(mem, free) && mem[MEMLIST].mlength == old(mem)[MEMLIST].mlength
      ensures free == Joined(old(free), k, Top(old(free)[k]))
    {
      ghost var m := free;
      assert Cell(mem, m, k) && m[k].addr > 0;
      if k + 1 < |m| { assert Cell(mem, m, k + 1); }
      if block + mem[block].mlength == next {
        Merge(mem, m, k);
        mem := mem[block := MemBlk(mem[next].mnext, mem[block].mlength + mem[next].mlength)];
        free := Joined(m, k, Top(m[k]));
      }
    }

    /** The overlap test against the two neighbours. */
    method Overlaps(a: int, n: int, prev: int, next: int) returns (bad: bool)
      requires Valid() && prev == Node(free, Rank(free, a)) && next == Next(free, Rank(free, a))
      ensures bad == Clash(free, a, n)
    {
      ghost var i := Rank(free, a);
      NodeIn(mem, free, i);
      if i > 0 { assert Cell(mem, free, i - 1) && free[i - 1].addr > 0; }
      NullIsEnd(free, i);
      hide Rank, WellFormed;
      var top := if prev == MEMLIST then NULL else prev + mem[prev].mlength;
      bad := (prev != MEMLIST && a < top) || (next != NULL && a + n > next);
    }

    /** Release of a range that the caller aligned and that lies inside the address space. */
    method Freemem(blkaddr: int, nbytes: int) returns (ok: bool)
      requires Valid() && 0 <= nbytes < WORD
      requires nbytes != 0 && minheap <= blkaddr <= maxheap ==> GoodRange(blkaddr, RoundMb(nbytes))
      modifies this
      ensures Valid() && Surplus() == old(Surplus())
      ensures if nbytes == 0 || blkaddr < minheap || blkaddr > maxheap then free == old(free) && !ok
              else (free, ok) == FreeList.Freemem(old(free), blkaddr, RoundMb(nbytes))
    {
      hide RoundMb, WellFormed, Represents, Total, Rank, U32, GoodRange, Joined, Placed, Place, Apart;
      if nbytes == 0 || blkaddr < minheap || blkaddr > maxheap { return false; }
      var n := RoundMb(nbytes);
      ghost var l := free;
      var prev, next, i := FindPlace(blkaddr);
      var bad := Overlaps(blkaddr, n, prev, next);
      if bad { return false; }
      ReleaseAdds(l, blkaddr, n);
      PlacedApart(l, blkaddr, n);
      WellFormedApart(l);
      TwoStages(l, blkaddr, n);
      RangePositive(blkaddr, n);
      var block := PlaceRange(blkaddr, n, prev, next);
      JoinNext(block, next, Place(l, blkaddr));
      Uncount(-n, Total(l));
      ok := true;
    }
  }
}
