/**
 Buffer pools in memory: free buffers linked through their own first word, which holds the
 pool number while the buffer is handed out.  Each call is shown to do to the abstract pools
 what the kernel model says, so the safety proved there speaks about these chains.
 */
module BufChain {
  import opened Wrappers
  import opened KernelState
  import opened KernelSteps
  import opened KernelPools

  const NULL := 0

  datatype BpEntry = BpEntry(bpnext: int, bpsem: int, bpsize: int)

  type Words = map<int, int>

  // ---- the chain a memory holds ----------------------------------------------------

  ghost predicate Chain(words: Words, p: int, bufs: seq<int>)
    decreases |bufs|
  {
    if bufs == [] then p == NULL
    else p == bufs[0] && p != NULL && p in words && Chain(words, words[p], bufs[1..])
  }

  lemma {:induction false} ChainFrame(words: Words, words': Words, p: int, bufs: seq<int>)
    requires Chain(words, p, bufs) && forall b :: b in bufs && b in words ==> b in words' && words'[b] == words[b]
    ensures Chain(words', p, bufs)
    decreases |bufs|
  {
    if bufs != [] { ChainFrame(words, words', words[p], bufs[1..]); }
  }

  // ---- the layout of a new pool ----------------------------------------------------

  /** Every buffer of a new pool is large enough, by less than a word more than needed, word aligned
      and inside the allocated region, and the buffers fill the region one behind the other. */
  lemma PoolLayout(base: int, bufsiz: int, numbufs: nat, i: nat)
    requires i < numbufs && base % 4 == 0 && bufsiz >= 0
    ensures var s, n := PoolBufs(base, bufsiz, numbufs), BufSize(bufsiz);
            && |s| == numbufs && bufsiz + 4 <= n < bufsiz + 8 && s[i] % 4 == 0
            && s[0] == base && (i + 1 < numbufs ==> s[i + 1] == s[i] + n)
            && base <= s[i] && s[i] + n <= base + numbufs * n
            && forall j :: i < j < numbufs ==> s[i] + n <= s[j]
  {
    var s, n := PoolBufs(base, bufsiz, numbufs), BufSize(bufsiz);
    SizeFacts(bufsiz);
    hide BufSize;
    Scaled(n, 0, i);
    Scaled(n, i + 1, numbufs);
    Multiple4(base, i, n);
    forall j | i < j < numbufs
      ensures s[i] + n <= s[j]
    {
      Scaled(n, i + 1, j);
    }
  }

  lemma SizeFacts(bufsiz: int)
    requires bufsiz >= 0
    ensures bufsiz + 4 <= BufSize(bufsiz) < bufsiz + 8 && BufSize(bufsiz) % 4 == 0
  {
  }

  lemma Scaled(n: int, i: int, j: int)
    requires i <= j && n >= 0
    ensures i * n <= j * n && (i + 1) * n == i * n + n && (j + 1) * n == j * n + n
  {
  }

  lemma Multiple4(base: int, i: int, n: int)
    requires base % 4 == 0 && n % 4 == 0
    ensures (base + i * n) % 4 == 0
  {
    assert i * n == 4 * (i * (n / 4));
  }

  /** The address of the `j`th buffer. */
  function Nth(base: int, n: int, j: nat): int { base + j * n }

  /** Buffer `j` of `count` links to the next one, the last to nothing. */
  ghost predicate LinkAt(words: Words, base: int, n: int, count: nat, j: nat) {
    Nth(base, n, j) in words && words[Nth(base, n, j)] == if j + 1 < count then Nth(base, n, j + 1) else NULL
  }

  lemma {:induction false} ChainBuilt(words: Words, base: int, n: int, count: nat, k: nat)
    requires base > 0 && n > 0 && k < count
    requires forall j: nat {:trigger LinkAt(words, base, n, count, j)} :: j < count ==> LinkAt(words, base, n, count, j)
    ensures Chain(words, Nth(base, n, k), seq(count - k, i => base + (k + i) * n))
    decreases count - k
  {
    var s := seq(count - k, i => base + (k + i) * n);
    assert s[0] == Nth(base, n, k);
    Scaled(n, 0, k);
    assert LinkAt(words, base, n, count, k);
    if k + 1 < count {
      ChainBuilt(words, base, n, count, k + 1);
      assert s[1..] == seq(count - k - 1, i => base + (k + 1 + i) * n);
    } else {
      assert s[1..] == [];
    }
  }

  lemma NthRising(base: int, n: int, j: nat, k: nat)
    requires n > 0 && j < k
    ensures Nth(base, n, j) + n <= Nth(base, n, k) && Nth(base, n, j + 1) == Nth(base, n, j) + n
  {
    Scaled(n, j + 1, k);
  }

  /** Memory of a pool after the first `k` links were written, all other words as before. */
  ghost predicate Linking(before: Words, words: Words, base: int, n: int, count: nat, k: nat) {
    && (forall j: nat {:trigger LinkAt(words, base, n, count, j)} :: j < k ==> LinkAt(words, base, n, count, j))
    && (forall a {:trigger a in words} {:trigger a in before} :: a in before && !(base <= a < base + count * n) ==>
          a in words && words[a] == before[a])
  }

  lemma LinkNext(before: Words, words: Words, base: int, n: int, count: nat, k: nat)
    requires Linking(before, words, base, n, count, k) && k < count && n > 0
    ensures var next := if k + 1 < count then Nth(base, n, k + 1) else NULL;
            Linking(before, words[Nth(base, n, k) := next], base, n, count, k + 1)
  {
    var w := words[Nth(base, n, k) := if k + 1 < count then Nth(base, n, k + 1) else NULL];
    forall j: nat | j < k + 1
      ensures LinkAt(w, base, n, count, j)
    {
      if j < k {
        assert LinkAt(words, base, n, count, j);
        NthRising(base, n, j, k);
      }
    }
    assert base <= Nth(base, n, k) < base + count * n by { Scaled(n, 0, k); Scaled(n, k + 1, count); }
  }

  // ---- the pools -------------------------------------------------------------------

  /** No buffer occurs twice, neither in a free list nor in two places. */
  ghost predicate Separate(pools: seq<Pool>) {
    && (forall i, b {:trigger b in Buffers(pools[i])} :: 0 <= i < |pools| && b in Buffers(pools[i]) ==> b > 0)
    && (forall i {:trigger pools[i]} :: 0 <= i < |pools| ==> PoolShape(pools[i]))
    && (forall i, j, b {:trigger b in Buffers(pools[i]), b in Buffers(pools[j])} ::
          0 <= i < |pools| && 0 <= j < |pools| && b in Buffers(pools[i]) && b in Buffers(pools[j]) ==> i == j)
  }

  lemma SeparateSwap(pools: seq<Pool>, i: nat, b: Pool)
    requires Separate(pools) && i < |pools| && Buffers(b) == Buffers(pools[i]) && PoolShape(b)
    ensures Separate(pools[i := b])
  {
    var q := pools[i := b];
    assert forall j :: 0 <= j < |q| ==> Buffers(q[j]) == Buffers(pools[j]);
    hide Buffers;
  }

  lemma PoppedSame(b: Pool)
    requires PoolShape(b) && b.free != []
    ensures Buffers(Popped(b)) == Buffers(b) && PoolShape(Popped(b))
  {
    assert b.free == [b.free[0]] + b.free[1..];
  }

  lemma PushedSame(b: Pool, buf: int)
    requires PoolShape(b) && buf in b.lent
    ensures Buffers(Pushed(b, buf)) == Buffers(b) && PoolShape(Pushed(b, buf))
  {
  }

  /** The buffers of a new pool are its own. */
  lemma NewBuffers(base: int, bufsiz: int, numbufs: nat, sem: int)
    requires base > 0 && bufsiz >= 0
    ensures var b := Pool(sem, PoolBufs(base, bufsiz, numbufs), {}, 0);
            PoolShape(b) && forall x {:trigger x in Buffers(b)} :: x in Buffers(b) ==>
                base <= x < base + numbufs * BufSize(bufsiz)
  {
    SizeFacts(bufsiz);
    hide BufSize;
    var n := BufSize(bufsiz);
    var b := Pool(sem, PoolBufs(base, bufsiz, numbufs), {}, 0);
    forall i, j | 0 <= i < j < |b.free|
      ensures b.free[i] != b.free[j]
    {
      NthRising(base, n, i, j);
    }
    forall x | x in Buffers(b)
      ensures base <= x < base + numbufs * n
    {
      var i :| 0 <= i < |b.free| && b.free[i] == x;
      Scaled(n, 0, i);
      Scaled(n, i + 1, numbufs);
    }
  }

  lemma SeparateNew(pools: seq<Pool>, b: Pool, lo: int, hi: int)
    requires Separate(pools) && PoolShape(b) && lo > 0
    requires forall x {:trigger x in Buffers(b)} :: x in Buffers(b) ==> lo <= x < hi
    requires forall i, x {:trigger x in Buffers(pools[i])} :: 0 <= i < |pools| && x in Buffers(pools[i]) ==>
               !(lo <= x < hi)
    ensures Separate(pools + [b])
  {
    hide Buffers, PoolShape;
    var q := pools + [b];
    assert forall i {:trigger q[i]} :: 0 <= i < |q| ==> q[i] == if i < |pools| then pools[i] else b;
  }

  // ---- the table -------------------------------------------------------------------

  /** The chain of one pool, and the numbers in the headers of its handed-out buffers. */
  ghost predicate PoolOK(words: Words, e: BpEntry, b: Pool, i: int) {
    && e.bpsem == b.sem && Chain(words, e.bpnext, b.free)
    && forall x {:trigger x in b.lent} :: x in b.lent ==> x in words && words[x] == i
  }

  /** Writing words that belong to no buffer of the pool leaves it alone. */
  lemma PoolFrame(words: Words, words': Words, e: BpEntry, b: Pool, i: int)
    requires PoolOK(words, e, b, i)
    requires forall x {:trigger x in Buffers(b)} :: x in Buffers(b) && x in words ==>
               x in words' && words'[x] == words[x]
    ensures PoolOK(words', e, b, i)
  {
    assert forall x {:trigger x in b.lent} :: x in b.lent ==> x in Buffers(b);
    assert forall x {:trigger x in b.free} :: x in b.free ==> x in Buffers(b);
    ChainFrame(words, words', e.bpnext, b.free);
  }

  lemma PopKeeps(words: Words, e: BpEntry, b: Pool, i: int)
    requires PoolOK(words, e, b, i) && PoolShape(b) && b.free != []
    ensures e.bpnext == b.free[0] && e.bpnext in words
    ensures PoolOK(words[e.bpnext := i], BpEntry(words[e.bpnext], e.bpsem, e.bpsize), Popped(b), i)
  {
    ChainFrame(words, words[e.bpnext := i], words[e.bpnext], b.free[1..]);
  }

  lemma PushKeeps(words: Words, e: BpEntry, b: Pool, i: int, x: int)
    requires PoolOK(words, e, b, i) && PoolShape(b) && x in b.lent && x != NULL
    ensures PoolOK(words[x := e.bpnext], BpEntry(x, e.bpsem, e.bpsize), Pushed(b, x), i)
  {
    ChainFrame(words, words[x := e.bpnext], e.bpnext, b.free);
    assert ([x] + b.free)[1..] == b.free;
  }

  /** A word of one pool's buffer is no word of another pool's. */
  lemma OtherPool(words: Words, e: BpEntry, pools: seq<Pool>, i: nat, j: nat, x: int, v: int)
    requires Separate(pools) && i < |pools| && j < |pools| && i != j && x in Buffers(pools[i])
    requires PoolOK(words, e, pools[j], j)
    ensures PoolOK(words[x := v], e, pools[j], j)
  {
    PoolFrame(words, words[x := v], e, pools[j], j);
  }

  class BufferTable {
    const buftab: array<BpEntry>
    var nbpools: nat
    /** Memory, word by word. */
    var words: Words
    ghost var pools: seq<Pool>

    ghost predicate Valid()
      reads this, buftab
    {
      && buftab.Length == NBPOOLS && nbpools == |pools| <= NBPOOLS && Separate(pools)
      && forall i {:trigger pools[i]} :: 0 <= i < |pools| ==> PoolOK(words, buftab[i], pools[i], i)
    }

    constructor (memory: Words)
      ensures Valid() && fresh(buftab) && pools == [] && words == memory
    {
      buftab := new BpEntry[NBPOOLS](_ => BpEntry(NULL, 0, 0));
      nbpools := 0;
      words := memory;
      pools := [];
    }

    /** The linking loop: `count` buffers of `n` bytes from `base` on. */
    method LinkBuffers(base: int, n: int, count: nat)
      requires base > 0 && n > 0 && count > 0
      modifies this`words
      ensures Linking(old(words), words, base, n, count, count)
    {
      var buf, numbufs := base, count - 1;
      ghost var k := 0;
      while numbufs > 0
        invariant k + numbufs + 1 == count && buf == Nth(base, n, k)
        invariant Linking(old(words), words, base, n, count, k)
      {
        LinkNext(old(words), words, base, n, count, k);
        NthRising(base, n, k, k + 1);
        words := words[buf := buf + n];
        buf, numbufs, k := buf + n, numbufs - 1, k + 1;
      }
      LinkNext(old(words), words, base, n, count, k);
      words := words[buf := NULL];
    }

    /** `mem` and `sem` are what `getmem` and `semcreate` answered; the memory is not in use. */
    method Mkbufpool(bufsiz: int, numbufs: int, mem: Option<int>, sem: Option<int>) returns (r: Option<int>)
      requires Valid()
      requires mem.Some? && bufsiz >= 0 ==> mem.value > 0 && forall i, x {:trigger x in Buffers(pools[i])} ::
                 0 <= i < |pools| && x in Buffers(pools[i]) ==>
                   !(mem.value <= x < mem.value + numbufs * BufSize(bufsiz))
      modifies this, buftab
      ensures Valid()
      ensures r.Some? <==>
                && BP_MINB <= bufsiz <= BP_MAXB && 1 <= numbufs <= BP_MAXN && |old(pools)| < NBPOOLS
                && mem.Some? && sem.Some?
      ensures r.None? ==> pools == old(pools) && words == old(words)
      ensures r.Some? ==> r.value == |old(pools)|
      ensures r.Some? ==>
                pools == old(pools) + [Pool(sem.value, PoolBufs(mem.value, bufsiz, numbufs), {}, 0)]
    {
      if bufsiz < BP_MINB || bufsiz > BP_MAXB || numbufs < 1 || numbufs > BP_MAXN || nbpools >= NBPOOLS { return None; }
      if mem.None? { return None; }
      if sem.None? { return None; }
      ghost var b := Pool(sem.value, PoolBufs(mem.value, bufsiz, numbufs), {}, 0);
      var poolid, base, size := nbpools, mem.value, BufSize(bufsiz);
      SizeFacts(bufsiz);
      NewBuffers(base, bufsiz, numbufs, sem.value);
      SeparateNew(pools, b, base, base + numbufs * size);
      hide BufSize, Separate, Buffers, PoolShape;
      LinkBuffers(base, size, numbufs);
      ChainBuilt(words, base, size, numbufs, 0);
      assert PoolBufs(base, bufsiz, numbufs) == seq(numbufs - 0, i => base + (0 + i) * size);
      forall i | 0 <= i < |pools|
        ensures PoolOK(words, buftab[i], pools[i], i)
      {
        PoolFrame(old(words), words, buftab[i], pools[i], i);
      }
      buftab[poolid] := BpEntry(base, sem.value, size - 4);
      nbpools := nbpools + 1;
      pools := pools + [b];
      r := Some(poolid);
    }

    /** `getbuf` once its wait was passed, when the free list of the pool is not empty. */
    method Getbuf(poolid: int) returns (r: Option<int>)
      requires Valid() && (0 <= poolid < |pools| ==> pools[poolid].free != [])
      modifies this, buftab
      ensures Valid()
      ensures r.Some? <==> 0 <= poolid < |old(pools)|
      ensures if r.None? then pools == old(pools) && words == old(words)
              else && r.value == old(pools)[poolid].free[0] + 4
                   && pools == old(pools)[poolid := Popped(old(pools)[poolid])]
    {
      if poolid < 0 || poolid >= nbpools { return None; }
      ghost var b := pools[poolid];
      PoppedSame(b);
      SeparateSwap(pools, poolid, Popped(b));
      PopKeeps(words, buftab[poolid], b, poolid);
      var bufptr := buftab[poolid].bpnext;
      assert bufptr in Buffers(b);
      hide Separate, PoolShape, Buffers, PoolOK;
      forall j | 0 <= j < |pools| && j != poolid
        ensures PoolOK(words[bufptr := poolid], buftab[j], pools[j], j)
      {
        OtherPool(words, buftab[j], pools, poolid, j, bufptr, poolid);
      }
      buftab[poolid] := BpEntry(words[bufptr], buftab[poolid].bpsem, buftab[poolid].bpsize);
      words := words[bufptr := poolid];
      pools := pools[poolid := Popped(b)];
      r := Some(bufptr + 4);
    }

    /** A buffer goes back to the pool its header names. */
    method Freebuf(bufaddr: int) returns (ok: bool)
      requires Valid() && bufaddr - 4 in words
      requires 0 <= words[bufaddr - 4] < |pools| ==> bufaddr - 4 in pools[words[bufaddr - 4]].lent
      modifies this, buftab
      ensures Valid()
      ensures ok <==> 0 <= old(words)[bufaddr - 4] < |old(pools)|
      ensures !ok ==> pools == old(pools) && words == old(words)
      ensures forall i {:trigger old(pools)[i]} :: 0 <= i < |old(pools)| && bufaddr - 4 in old(pools)[i].lent ==>
                ok && pools == old(pools)[i := Pushed(old(pools)[i], bufaddr - 4)]
    {
      var poolid := words[bufaddr - 4];
      if poolid < 0 || poolid >= nbpools { return false; }
      ghost var b := pools[poolid];
      var x := bufaddr - 4;
      PushedSame(b, x);
      SeparateSwap(pools, poolid, Pushed(b, x));
      assert x in Buffers(b);
      PushKeeps(words, buftab[poolid], b, poolid, x);
      assert forall i {:trigger pools[i]} :: 0 <= i < |pools| && x in pools[i].lent ==> i == poolid;
      var first := buftab[poolid].bpnext;
      hide Separate, PoolShape, Buffers, PoolOK;
      forall j | 0 <= j < |pools| && j != poolid
        ensures PoolOK(words[x := first], buftab[j], pools[j], j)
      {
        OtherPool(words, buftab[j], pools, poolid, j, x, first);
      }
      words := words[x := first];
      buftab[poolid] := BpEntry(x, buftab[poolid].bpsem, buftab[poolid].bpsize);
      pools := pools[poolid := Pushed(b, x)];
      ok := true;
    }
  }
}
