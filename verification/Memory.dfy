/**
 What `getmem`, `getstk` and `freemem` do to the free bytes, and the exact round trips that
 follow because the list is canonical.
 */
module Memory {
  import opened Wrappers
  import opened FreeList

  predicate InRange(a: int, n: int, x: int) { a <= x < a + n }

  /** `m` is `l` without the `n` bytes at `a`, all of which were free. */
  ghost predicate TakesRange(l: seq<Block>, m: seq<Block>, a: int, n: int) {
    && WellFormed(m)
    && (forall x :: InRange(a, n, x) ==> IsFree(l, x))
    && (forall x :: IsFree(m, x) <==> IsFree(l, x) && !InRange(a, n, x))
    && Total(m) == Total(l) - n
  }

  // ---- taking part of a block ------------------------------------------------------

  lemma DropTakes(l: seq<Block>, i: nat)
    requires WellFormed(l) && i < |l|
    ensures TakesRange(l, Drop(l, i), l[i].addr, l[i].len)
  {
    var m := Drop(l, i);
    assert forall j :: 0 <= j < |m| ==> m[j] == l[if j < i then j else j + 1];
    forall x
      ensures InRange(l[i].addr, l[i].len, x) ==> IsFree(l, x)
      ensures IsFree(m, x) <==> IsFree(l, x) && !InRange(l[i].addr, l[i].len, x)
    {
      FreeAround(l, i, x);
      Below(l, i, x);
      FreeConcat(l[..i], l[i + 1..], x);
    }
    TotalAround(l, i, []);
    assert l[..i] + [] + l[i + 1..] == m;
  }

  /** A block cut from one end of another. */
  predicate CutFrom(c: Block, b: Block, a: int, n: int) {
    && 0 < n && b.len == c.len - n && 0 < b.len && b.len % 8 == 0 && b.addr % 8 == 0
    && ((b.addr == c.addr + n && a == c.addr) || (b.addr == c.addr && a == Top(c) - n))
  }

  /** Both ends of a block are good places to cut. */
  lemma Cut8(c: Block, n: int)
    requires Sound(c) && 0 < n < c.len && n % 8 == 0
    ensures CutFrom(c, Block(c.addr + n, c.len - n), c.addr, n) && GoodRange(c.addr, n)
    ensures CutFrom(c, Block(c.addr, c.len - n), Top(c) - n, n) && GoodRange(Top(c) - n, n)
  {
  }

  lemma SoundAt(l: seq<Block>, i: nat)
    requires WellFormed(l) && i < |l|
    ensures Sound(l[i])
  {
  }

  lemma GoodWhole(c: Block)
    requires Sound(c)
    ensures GoodRange(c.addr, c.len)
  {
  }

  lemma ShrinkWellFormed(l: seq<Block>, i: nat, b: Block, a: int, n: int)
    requires WellFormed(l) && i < |l| && CutFrom(l[i], b, a, n)
    ensures WellFormed(l[i := b])
  {
    var m := l[i := b];
    forall j, k | 0 <= j < k < |m|
      ensures Top(m[j]) < m[k].addr
    {
      assert Top(l[j]) < l[k].addr;
    }
  }

  lemma ShrinkBytes(l: seq<Block>, i: nat, b: Block, a: int, n: int, x: int)
    requires WellFormed(l) && i < |l| && CutFrom(l[i], b, a, n)
    ensures InRange(a, n, x) ==> IsFree(l, x)
    ensures IsFree(l[i := b], x) <==> IsFree(l, x) && !InRange(a, n, x)
  {
    FreeAround(l, i, x);
    Below(l, i, x);
    FreeAround(l[i := b], i, x);
    assert l[i := b][..i] == l[..i] && l[i := b][i + 1..] == l[i + 1..];
    hide WellFormed, IsFree;
  }

  /** Replacing a block by a smaller one inside it. */
  lemma ShrinkTakes(l: seq<Block>, i: nat, b: Block, a: int, n: int)
    requires WellFormed(l) && i < |l| && CutFrom(l[i], b, a, n)
    ensures TakesRange(l, l[i := b], a, n)
  {
    ShrinkWellFormed(l, i, b, a, n);
    TotalAround(l, i, [b]);
    assert Total([b]) == b.len + Total([b][1..]);
    assert l[..i] + [b] + l[i + 1..] == l[i := b];
    hide WellFormed, IsFree, Total;
    forall x
      ensures InRange(a, n, x) ==> IsFree(l, x)
      ensures IsFree(l[i := b], x) <==> IsFree(l, x) && !InRange(a, n, x)
    {
      ShrinkBytes(l, i, b, a, n, x);
    }
  }

  // ---- getmem, getstk --------------------------------------------------------------

  /** A successful `getmem` takes exactly the returned range out of the free bytes; a failed
      one changes nothing and means that no block is large enough. */
  lemma GetmemBytes(l: seq<Block>, n: int)
    requires WellFormed(l) && 0 < n && n % 8 == 0
    ensures var (m, r) := Getmem(l, n);
            match r
            case None => m == l && forall i :: 0 <= i < |l| ==> l[i].len < n
            case Some(a) => TakesRange(l, m, a, n) && GoodRange(a, n)
  {
    hide WellFormed, Sound, TakesRange, GoodRange, FirstFit, CutFrom;
    var i := FirstFit(l, n);
    if i < |l| {
      SoundAt(l, i);
      if l[i].len == n {
        DropTakes(l, i);
        GoodWhole(l[i]);
      } else {
        Cut8(l[i], n);
        ShrinkTakes(l, i, Block(l[i].addr + n, l[i].len - n), l[i].addr, n);
      }
    }
  }

  /** First fit: the returned range starts the lowest block that is large enough. */
  lemma GetmemLowest(l: seq<Block>, n: int, j: nat)
    requires WellFormed(l) && 0 < n && j < |l| && l[j].len >= n
    ensures var (m, r) := Getmem(l, n); r.Some? && r.value <= l[j].addr
  {
    var i := FirstFit(l, n);
    if i < j { assert Top(l[i]) < l[j].addr; }
  }

  lemma GetstkBytes(l: seq<Block>, n: int)
    requires WellFormed(l) && 0 < n && n % 8 == 0
    ensures var (m, r) := Getstk(l, n);
            match r
            case None => m == l && forall i :: 0 <= i < |l| ==> l[i].len < n
            case Some(top) => TakesRange(l, m, top + 4 - n, n) && GoodRange(top + 4 - n, n)
  {
    hide WellFormed, Sound, TakesRange, GoodRange, LastFit, CutFrom;
    var i := LastFit(l, n);
    if i < |l| {
      SoundAt(l, i);
      if l[i].len == n {
        DropTakes(l, i);
        GoodWhole(l[i]);
      } else {
        Cut8(l[i], n);
        ShrinkTakes(l, i, Block(l[i].addr, l[i].len - n), Top(l[i]) - n, n);
      }
    }
  }

  /** Last fit: the returned word ends the highest block that is large enough. */
  lemma GetstkHighest(l: seq<Block>, n: int, j: nat)
    requires WellFormed(l) && 0 < n && j < |l| && l[j].len >= n
    ensures var (m, r) := Getstk(l, n); r.Some? && r.value + 4 >= Top(l[j])
  {
    var i := LastFit(l, n);
    if j < i { assert Top(l[j]) < l[i].addr; }
  }

  // ---- freemem ---------------------------------------------------------------------

  /** Although it looks at two blocks only, `freemem` refuses a range exactly when some byte
      of it is already free. */
  lemma ClashExact(l: seq<Block>, a: int, n: int)
    requires WellFormed(l) && GoodRange(a, n)
    ensures Clash(l, a, n) <==> exists x :: InRange(a, n, x) && IsFree(l, x)
  {
    var i := Rank(l, a);
    if i > 0 && a < Top(l[i - 1]) {
      assert InBlock(l[i - 1], a) && InRange(a, n, a);
      assert IsFree(l, a);
    } else if i < |l| && a + n > l[i].addr {
      assert InBlock(l[i], l[i].addr) && InRange(a, n, l[i].addr);
      assert IsFree(l, l[i].addr);
    }
    forall x | InRange(a, n, x) && IsFree(l, x)
      ensures Clash(l, a, n)
    {
      FreeAt(l, i, x);
      BelowRank(l, a, x);
    }
  }

  /** `m` is `l` with the `n` bytes at `a` added. */
  ghost predicate AddsRange(l: seq<Block>, m: seq<Block>, a: int, n: int) {
    && WellFormed(m)
    && (forall x :: IsFree(m, x) <==> IsFree(l, x) || InRange(a, n, x))
    && Total(m) == Total(l) + n
  }

  function Splice(l: seq<Block>, lo: nat, hi: nat, b: Block): seq<Block>
    requires lo <= hi <= |l|
  {
    l[..lo] + [b] + l[hi..]
  }

  lemma SpliceElem(l: seq<Block>, lo: nat, hi: nat, b: Block, j: nat)
    requires lo <= hi <= |l| && j < |Splice(l, lo, hi, b)|
    ensures |Splice(l, lo, hi, b)| == lo + 1 + |l| - hi
    ensures Splice(l, lo, hi, b)[j] == if j < lo then l[j] else if j == lo then b else l[j - lo - 1 + hi]
  {
  }

  lemma SpliceOrder(l: seq<Block>, lo: nat, hi: nat, b: Block, j: nat, k: nat)
    requires WellFormed(l) && lo <= hi <= |l| && b.len > 0
    requires lo > 0 ==> Top(l[lo - 1]) < b.addr
    requires hi < |l| ==> Top(b) < l[hi].addr
    requires j < k < |Splice(l, lo, hi, b)|
    ensures Top(Splice(l, lo, hi, b)[j]) < Splice(l, lo, hi, b)[k].addr
  {
    SpliceElem(l, lo, hi, b, j);
    SpliceElem(l, lo, hi, b, k);
    hide Splice, Sound;
    if k == lo && j < lo - 1 {
      assert Top(l[j]) < l[lo - 1].addr;
      Longer(l, lo - 1);
    } else if j == lo && k > lo + 1 {
      assert Top(l[hi]) < l[k - lo - 1 + hi].addr;
      Longer(l, hi);
    }
  }

  lemma Longer(l: seq<Block>, i: nat)
    requires WellFormed(l) && i < |l|
    ensures l[i].addr < Top(l[i])
  {
  }

  lemma GapAbove(l: seq<Block>, i: int)
    requires WellFormed(l)
    ensures 0 <= i < |l| - 1 ==> Top(l[i]) < l[i + 1].addr
  {
  }

  /** The blocks left and right of a released range keep their distance. */
  lemma Neighbours(l: seq<Block>, lo: nat, hi: nat, b: Block)
    requires WellFormed(l) && lo <= hi <= |l|
    requires Sound(b)
    requires lo > 0 ==> Top(l[lo - 1]) < b.addr
    requires hi < |l| ==> Top(b) < l[hi].addr
    ensures WellFormed(Splice(l, lo, hi, b))
  {
    assert b.len > 0;
    hide Splice, Sound;
    var m := Splice(l, lo, hi, b);
    forall j: nat | j < |m|
      ensures Sound(m[j])
    {
      SpliceElem(l, lo, hi, b, j);
    }
    forall j: nat, k: nat | j < k < |m|
      ensures Top(m[j]) < m[k].addr
    {
      SpliceOrder(l, lo, hi, b, j, k);
    }
  }

  lemma Spliced(l: seq<Block>, lo: nat, hi: nat, b: Block, x: int)
    requires lo <= hi <= |l|
    ensures IsFree(Splice(l, lo, hi, b), x) <==> IsFree(l[..lo], x) || InBlock(b, x) || IsFree(l[hi..], x)
  {
    FreeConcat(l[..lo] + [b], l[hi..], x);
    FreeConcat(l[..lo], [b], x);
    FreeOne(b, x);
    hide IsFree;
  }

  lemma ThreeParts(l: seq<Block>, lo: nat, hi: nat)
    requires lo <= hi <= |l|
    ensures l == l[..lo] + (l[lo..hi] + l[hi..])
  {
  }

  lemma SplicedTotal(l: seq<Block>, lo: nat, hi: nat, b: Block)
    requires lo <= hi <= |l|
    ensures Total(Splice(l, lo, hi, b)) == Total(l) - Total(l[lo..hi]) + b.len
  {
    assert Total([b]) == b.len + Total([b][1..]);
    hide Total;
    ThreeParts(l, lo, hi);
    var p, m, q := l[..lo], l[lo..hi], l[hi..];
    assert l == p + (m + q);
    TotalConcat(p, m + q);
    TotalConcat(m, q);
    TotalConcat(p + [b], q);
    TotalConcat(p, [b]);
  }

  /** `b` consists of the range and the bytes of `mid`. */
  ghost predicate Covers(b: Block, a: int, n: int, mid: seq<Block>) {
    (forall x :: InBlock(b, x) <==> InRange(a, n, x) || IsFree(mid, x)) && b.len == n + Total(mid)
  }

  /** A merged block covers the released range and the blocks it replaces. */
  lemma MergeAdds(l: seq<Block>, a: int, n: int, lo: nat, hi: nat, b: Block)
    requires WellFormed(l) && lo <= hi <= |l|
    requires Sound(b)
    requires lo > 0 ==> Top(l[lo - 1]) < b.addr
    requires hi < |l| ==> Top(b) < l[hi].addr
    requires Covers(b, a, n, l[lo..hi])
    ensures AddsRange(l, Splice(l, lo, hi, b), a, n)
  {
    Neighbours(l, lo, hi, b);
    SplicedTotal(l, lo, hi, b);
    hide WellFormed, Sound, Splice, Total, IsFree, InBlock;
    forall x
      ensures IsFree(Splice(l, lo, hi, b), x) <==> IsFree(l, x) || InRange(a, n, x)
    {
      Spliced(l, lo, hi, b, x);
      ThreeParts(l, lo, hi);
      FreeConcat(l[..lo], l[lo..hi] + l[hi..], x);
      FreeConcat(l[lo..hi], l[hi..], x);
    }
  }

  lemma One(l: seq<Block>, i: nat)
    requires i < |l|
    ensures l[i..i + 1] == [l[i]] && Total(l[i..i + 1]) == l[i].len
    ensures forall x :: IsFree(l[i..i + 1], x) <==> InBlock(l[i], x)
  {
    assert Total([l[i]]) == l[i].len + Total([l[i]][1..]);
    forall x
      ensures IsFree([l[i]], x) <==> InBlock(l[i], x)
    {
      FreeOne(l[i], x);
    }
  }

  lemma Two(l: seq<Block>, i: nat)
    requires i + 1 < |l|
    ensures Total(l[i..i + 2]) == l[i].len + l[i + 1].len
    ensures forall x :: IsFree(l[i..i + 2], x) <==> InBlock(l[i], x) || InBlock(l[i + 1], x)
  {
    assert l[i..i + 2] == [l[i]] + [l[i + 1]];
    One(l, i);
    One(l, i + 1);
    TotalConcat([l[i]], [l[i + 1]]);
    forall x
      ensures IsFree(l[i..i + 2], x) <==> InBlock(l[i], x) || InBlock(l[i + 1], x)
    {
      FreeConcat([l[i]], [l[i + 1]], x);
      FreeOne(l[i], x);
      FreeOne(l[i + 1], x);
    }
  }

  lemma SoundBridge(p: Block, a: int, n: int, q: Block)
    requires Sound(p) && Sound(q) && GoodRange(a, n) && Top(p) == a && a + n == q.addr
    ensures Sound(Block(p.addr, p.len + n + q.len)) && n > 0 && p.len > 0 && q.len > 0
  {
    Sum8(p.len, n);
    Sum8(p.len + n, q.len);
  }

  lemma ReleaseBoth(l: seq<Block>, a: int, n: int, i: nat)
    requires WellFormed(l) && GoodRange(a, n) && 0 < i < |l| && Top(l[i - 1]) == a && a + n == l[i].addr
    ensures AddsRange(l, Splice(l, i - 1, i + 1, Block(l[i - 1].addr, l[i - 1].len + n + l[i].len)), a, n)
  {
    hide WellFormed, Splice, Sound, GoodRange, AddsRange, Covers;
    JoinBoth(l, a, n, i - 1, Block(l[i - 1].addr, l[i - 1].len + n + l[i].len));
  }

  lemma JoinBoth(l: seq<Block>, a: int, n: int, k: nat, b: Block)
    requires WellFormed(l) && GoodRange(a, n) && k + 1 < |l| && Top(l[k]) == a && a + n == l[k + 1].addr
    requires b == Block(l[k].addr, l[k].len + n + l[k + 1].len)
    ensures AddsRange(l, Splice(l, k, k + 2, b), a, n)
  {
    hide WellFormed, Splice, Sound, GoodRange, AddsRange, Covers;
    SoundAt(l, k);
    SoundAt(l, k + 1);
    SoundBridge(l[k], a, n, l[k + 1]);
    GapAbove(l, k - 1);
    GapAbove(l, k + 1);
    CoversTwo(l, k, a, n);
    assert Top(b) == Top(l[k + 1]);
    MergeAdds(l, a, n, k, k + 2, b);
  }

  lemma ReleaseBelow(l: seq<Block>, a: int, n: int, i: nat)
    requires WellFormed(l) && GoodRange(a, n) && 0 < i <= |l| && Top(l[i - 1]) == a && (i < |l| ==> a + n < l[i].addr)
    ensures AddsRange(l, Splice(l, i - 1, i, Block(l[i - 1].addr, l[i - 1].len + n)), a, n)
  {
    hide WellFormed, Splice, Sound, GoodRange, AddsRange, Covers;
    var p := l[i - 1];
    SoundAt(l, i - 1);
    SoundAfter(p, a, n);
    GapAbove(l, i - 2);
    CoversOne(l, i - 1, a, n, Block(p.addr, p.len + n));
    MergeAdds(l, a, n, i - 1, i, Block(p.addr, p.len + n));
  }

  lemma ReleaseAbove(l: seq<Block>, a: int, n: int, i: nat)
    requires WellFormed(l) && GoodRange(a, n) && i < |l| && a + n == l[i].addr && (i > 0 ==> Top(l[i - 1]) < a)
    ensures AddsRange(l, Splice(l, i, i + 1, Block(a, n + l[i].len)), a, n)
  {
    hide WellFormed, Splice, Sound, GoodRange, AddsRange, Covers;
    var q := l[i];
    SoundAt(l, i);
    SoundBefore(a, n, q);
    GapAbove(l, i);
    CoversOne(l, i, a, n, Block(a, n + q.len));
    MergeAdds(l, a, n, i, i + 1, Block(a, n + q.len));
  }

  lemma ReleaseAlone(l: seq<Block>, a: int, n: int, i: nat)
    requires WellFormed(l) && GoodRange(a, n) && i <= |l| && (i > 0 ==> Top(l[i - 1]) < a)
    requires i < |l| ==> a + n < l[i].addr
    ensures AddsRange(l, Splice(l, i, i, Block(a, n)), a, n)
  {
    assert l[i..i] == [];
    assert Covers(Block(a, n), a, n, l[i..i]);
    hide WellFormed, Splice, AddsRange, Covers;
    MergeAdds(l, a, n, i, i, Block(a, n));
  }

  lemma SoundAfter(p: Block, a: int, n: int)
    requires Sound(p) && GoodRange(a, n) && Top(p) == a
    ensures Sound(Block(p.addr, p.len + n)) && n > 0 && p.len > 0
  {
    Sum8(p.len, n);
  }

  lemma SoundBefore(a: int, n: int, q: Block)
    requires Sound(q) && GoodRange(a, n) && a + n == q.addr
    ensures Sound(Block(a, n + q.len)) && n > 0 && q.len > 0
  {
    Sum8(n, q.len);
  }

  lemma CoversOne(l: seq<Block>, i: nat, a: int, n: int, b: Block)
    requires i < |l| && n > 0 && l[i].len > 0 && b.len == l[i].len + n
    requires (Top(l[i]) == a && b.addr == l[i].addr) || (a + n == l[i].addr && b.addr == a)
    ensures Covers(b, a, n, l[i..i + 1])
  {
    One(l, i);
    hide Total, IsFree;
  }

  lemma CoversTwo(l: seq<Block>, i: nat, a: int, n: int)
    requires i + 1 < |l| && n > 0 && l[i].len > 0 && l[i + 1].len > 0 && Top(l[i]) == a && a + n == l[i + 1].addr
    ensures Covers(Block(l[i].addr, l[i].len + n + l[i + 1].len), a, n, l[i..i + 2])
  {
    Two(l, i);
    hide Total, IsFree;
  }

  lemma Sum8(x: int, y: int)
    requires x % 8 == 0 && y % 8 == 0
    ensures (x + y) % 8 == 0
  {
  }

  /** A release that is not refused adds exactly the range and keeps the list canonical. */
  lemma ReleaseAdds(l: seq<Block>, a: int, n: int)
    requires WellFormed(l) && GoodRange(a, n) && !Clash(l, a, n)
    ensures AddsRange(l, Release(l, a, n), a, n)
  {
    hide WellFormed, AddsRange, Rank, GoodRange;
    var i := Rank(l, a);
    var below := i > 0 && Top(l[i - 1]) == a;
    var above := i < |l| && a + n == l[i].addr;
    if below && above {
      ReleaseBoth(l, a, n, i);
    } else if below {
      ReleaseBelow(l, a, n, i);
    } else if above {
      ReleaseAbove(l, a, n, i);
    } else {
      ReleaseAlone(l, a, n, i);
    }
  }

  /** `freemem`: refused exactly on overlap, otherwise it adds exactly the range. */
  lemma FreememBytes(l: seq<Block>, a: int, n: int)
    requires WellFormed(l) && GoodRange(a, n)
    ensures var (m, ok) := Freemem(l, a, n);
            && (ok <==> forall x :: InRange(a, n, x) ==> !IsFree(l, x))
            && (if ok then AddsRange(l, m, a, n) else m == l)
  {
    ClashExact(l, a, n);
    if !Clash(l, a, n) { ReleaseAdds(l, a, n); }
  }

  // ---- round trips -----------------------------------------------------------------

  /** Releasing a range that was taken out of a list gives back that very list. */
  lemma TakeThenRelease(l: seq<Block>, m: seq<Block>, a: int, n: int)
    requires WellFormed(l) && GoodRange(a, n) && TakesRange(l, m, a, n)
    ensures Freemem(m, a, n) == (l, true)
  {
    FreememBytes(m, a, n);
    Canonical(Freemem(m, a, n).0, l);
  }

  lemma RoundMbFacts(n: int)
    requires 0 <= n < WORD
    ensures 0 <= RoundMb(n) < WORD && RoundMb(n) % 8 == 0
    ensures RoundMb(n) == 0 <==> n == 0 || n > WORD - 8
    ensures RoundMb(n) != 0 ==> n <= RoundMb(n) < n + 8
    ensures RoundMb(RoundMb(n)) == RoundMb(n)
  {
  }

  /** Blocks are multiples of 8 bytes long, so one holds `n` bytes exactly if it holds `n` rounded up. */
  lemma RoomFor(b: Block, n: int)
    requires Sound(b) && 0 < n <= WORD - 8
    ensures b.len < RoundMb(n) <==> b.len < n
  {
  }

  /** What a caller gets for `n` bytes: an aligned range of at least `n` and less than `n + 8` bytes
      that were free and no longer are; or nothing, exactly when no block has `n` bytes. */
  lemma GetmemServes(l: seq<Block>, n: int) returns (k: int)
    requires WellFormed(l) && 0 < n <= WORD - 8
    ensures n <= k < n + 8 && k % 8 == 0
    ensures var (m, r) := Getmem(l, RoundMb(n));
            && (r.None? <==> forall i :: 0 <= i < |l| ==> l[i].len < n)
            && if r.None? then m == l else TakesRange(l, m, r.value, k) && r.value % 8 == 0
  {
    k := RoundMb(n);
    RoundMbFacts(n);
    GetmemBytes(l, k);
    forall i | 0 <= i < |l|
      ensures l[i].len < k <==> l[i].len < n
    {
      RoomFor(l[i], n);
    }
    var i := FirstFit(l, k);
    hide RoundMb, TakesRange, WellFormed, FirstFit;
  }

  /** The same for a stack, which ends at the word returned. */
  lemma GetstkServes(l: seq<Block>, n: int) returns (k: int)
    requires WellFormed(l) && 0 < n <= WORD - 8
    ensures n <= k < n + 8 && k % 8 == 0
    ensures var (m, r) := Getstk(l, RoundMb(n));
            && (r.None? <==> forall i :: 0 <= i < |l| ==> l[i].len < n)
            && if r.None? then m == l else TakesRange(l, m, r.value + 4 - k, k) && (r.value + 4) % 8 == 0
  {
    k := RoundMb(n);
    RoundMbFacts(n);
    GetstkBytes(l, k);
    forall i | 0 <= i < |l|
      ensures l[i].len < k <==> l[i].len < n
    {
      RoomFor(l[i], n);
    }
    var i := LastFit(l, k);
    hide RoundMb, TakesRange, WellFormed, LastFit;
    if i < |l| { EvenEnd(Getstk(l, k).1.value + 4, k); }
  }

  lemma EvenEnd(e: int, k: int)
    requires (e - k) % 8 == 0 && k % 8 == 0
    ensures e % 8 == 0
  {
  }

  /** `freemem(getmem(n), n)` is the identity on the free list, for every request that does
      not overflow the rounding. */
  lemma GetmemRoundTrip(l: seq<Block>, n: int)
    requires WellFormed(l) && 0 < n <= WORD - 8
    ensures var (m, r) := Getmem(l, RoundMb(n)); r.Some? ==> Freemem(m, r.value, RoundMb(n)) == (l, true)
  {
    hide RoundMb, WellFormed, TakesRange, Getmem, GoodRange;
    RoundMbFacts(n);
    GetmemBytes(l, RoundMb(n));
    var (m, r) := Getmem(l, RoundMb(n));
    if r.Some? { TakeThenRelease(l, m, r.value, RoundMb(n)); }
  }

  /** `freestk`: the address arithmetic of the macro in memory.h, then `freemem`. */
  function Freestk(l: seq<Block>, p: int, len: int): (seq<Block>, bool) {
    Freemem(l, p - RoundMb(len) + 4, RoundMb(RoundMb(len)))
  }

  lemma GetstkRoundTrip(l: seq<Block>, n: int)
    requires WellFormed(l) && 0 < n <= WORD - 8
    ensures var (m, r) := Getstk(l, RoundMb(n)); r.Some? ==> Freestk(m, r.value, n) == (l, true)
  {
    hide RoundMb, WellFormed, TakesRange, Getstk, GoodRange;
    RoundMbFacts(n);
    GetstkBytes(l, RoundMb(n));
    var (m, r) := Getstk(l, RoundMb(n));
    if r.Some? { TakeThenRelease(l, m, r.value + 4 - RoundMb(n), RoundMb(n)); }
  }

  /** The stack size `create` asks for: at least MINSTK, rounded up to a word. */
  function StackSize(ssize: int): int {
    var s := if ssize < MINSTK then MINSTK else ssize;
    (s + 3) % WORD / 4 * 4
  }

  /** It is the least multiple of 4 that is at least the size asked for and at least MINSTK. */
  lemma StackSizeMeaning(ssize: int)
    requires 0 <= ssize <= WORD - 4
    ensures var n := StackSize(ssize);
            && n % 4 == 0 && ssize <= n && 400 <= n && (n < ssize + 4 || n == 400)
  {
  }

  /** A `create` that succeeds followed by the stack release in `kill` conserves memory. */
  lemma CreateKillConserves(l: seq<Block>, ssize: int)
    requires WellFormed(l) && 0 <= ssize <= WORD - 8
    ensures var (m, r) := Getstk(l, RoundMb(StackSize(ssize))); r.Some? ==>
              Freestk(m, r.value, StackSize(ssize)) == (l, true)
  {
    GetstkRoundTrip(l, StackSize(ssize));
  }

  /** Beyond that bound the rounded size is zero: `getmem` then hands out the first free block
      without taking it off the list, so its bytes are both free and allocated. */
  lemma GetmemOverflow(l: seq<Block>, n: int)
    requires WellFormed(l) && l != [] && WORD - 8 < n < WORD
    ensures Getmem(l, RoundMb(n)) == (l, Some(l[0].addr)) && IsFree(l, l[0].addr)
  {
    RoundMbFacts(n);
    assert FirstFit(l, 0) == 0;
    assert l[0 := Block(l[0].addr + 0, l[0].len - 0)] == l;
    FirstByte(l, 0);
  }

  /** The same sizes make `getstk` answer with the last word of the last block, which stays free. */
  lemma GetstkOverflow(l: seq<Block>, n: int)
    requires WellFormed(l) && l != [] && WORD - 8 < n < WORD
    ensures var last := l[|l| - 1]; Getstk(l, RoundMb(n)) == (l, Some(Top(last) - 4)) && IsFree(l, Top(last) - 4)
  {
    var k := |l| - 1;
    RoundMbFacts(n);
    SoundAt(l, k);
    assert LastFit(l, 0) == k;
    assert l[k := Block(l[k].addr, l[k].len - 0)] == l;
    assert InBlock(l[k], Top(l[k]) - 4);
  }

  /** So does `create` for exactly four stack sizes; three more are rounded to nothing. */
  lemma CreateOverflow(l: seq<Block>, ssize: int)
    requires WellFormed(l) && l != [] && 0 <= ssize < WORD
    ensures WORD - 8 < StackSize(ssize) <==> WORD - 8 < ssize <= WORD - 4
    ensures StackSize(ssize) == 0 <==> ssize > WORD - 4
    ensures WORD - 8 < ssize <= WORD - 4 ==>
              var last := l[|l| - 1]; Getstk(l, RoundMb(StackSize(ssize))) == (l, Some(Top(last) - 4))
  {
    StackSizes(ssize);
    hide StackSize, RoundMb;
    if WORD - 8 < ssize <= WORD - 4 { GetstkOverflow(l, StackSize(ssize)); }
  }

  lemma StackSizes(ssize: int)
    requires 0 <= ssize < WORD
    ensures WORD - 8 < StackSize(ssize) <==> WORD - 8 < ssize <= WORD - 4
    ensures StackSize(ssize) == 0 <==> ssize > WORD - 4
    ensures 0 <= StackSize(ssize) < WORD
  {
  }

  /** And `freemem` of an aligned address between two blocks, touching neither, links an empty
      block into the list, which is then no longer well formed. */
  lemma FreememOverflow(l: seq<Block>, a: int, n: int)
    requires WellFormed(l) && WORD - 8 < n < WORD && a > 0
    requires forall i :: 0 <= i < |l| ==> a < l[i].addr || Top(l[i]) < a
    ensures var i := Rank(l, a);
            var m := l[..i] + [Block(a, 0)] + l[i..];
            Freemem(l, a, RoundMb(n)) == (m, true) && !WellFormed(m)
  {
    RoundMbFacts(n);
    var i := Rank(l, a);
    var m := l[..i] + [Block(a, 0)] + l[i..];
    assert m[i] == Block(a, 0) && !Sound(m[i]);
  }

  // ---- whole runs ------------------------------------------------------------------

  datatype MemOp = DoGetmem(n: int) | DoGetstk(n: int) | DoFreemem(a: int, n: int)

  /** 32-bit sizes that survive rounding; releases of aligned ranges inside the address space. */
  predicate Sane(op: MemOp) {
    match op
    case DoGetmem(n) => 0 < n <= WORD - 8
    case DoGetstk(n) => 0 < n <= WORD - 8
    case DoFreemem(a, n) => 0 < n <= WORD - 8 && GoodRange(a, RoundMb(n))
  }

  function MemStep(l: seq<Block>, op: MemOp): seq<Block> {
    match op
    case DoGetmem(n) => Getmem(l, RoundMb(n)).0
    case DoGetstk(n) => Getstk(l, RoundMb(n)).0
    case DoFreemem(a, n) => Freemem(l, a, RoundMb(n)).0
  }

  function MemRun(l: seq<Block>, ops: seq<MemOp>): seq<Block>
    decreases |ops|
  {
    if ops == [] then l else MemRun(MemStep(l, ops[0]), ops[1..])
  }

  lemma StepWellFormed(l: seq<Block>, op: MemOp)
    requires WellFormed(l) && Sane(op)
    ensures WellFormed(MemStep(l, op))
  {
    RoundMbFacts(op.n);
    match op
    case DoGetmem(n) => GetmemBytes(l, RoundMb(n));
    case DoGetstk(n) => GetstkBytes(l, RoundMb(n));
    case DoFreemem(a, n) => FreememBytes(l, a, RoundMb(n));
  }

  /** Over any sequence of calls the list stays sorted, granular, disjoint and coalesced. */
  lemma {:induction false} RunWellFormed(l: seq<Block>, ops: seq<MemOp>)
    requires WellFormed(l) && forall i :: 0 <= i < |ops| ==> Sane(ops[i])
    ensures WellFormed(MemRun(l, ops))
    decreases |ops|
  {
    if ops != [] {
      StepWellFormed(l, ops[0]);
      assert forall i :: 0 <= i < |ops| - 1 ==> ops[1..][i] == ops[i + 1];
      RunWellFormed(MemStep(l, ops[0]), ops[1..]);
    }
  }
}
