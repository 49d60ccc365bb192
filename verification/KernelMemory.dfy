/**
 Buffer pools on memory from the heap: `mkbufpool` takes its memory with `getmem`, so that no
 buffer of a new pool belongs to an older one, and no buffer is ever on the heap's free list.
 */
module KernelMemory {
  import opened Wrappers
  import opened KernelState
  import opened KernelSteps
  import opened KernelPools
  import opened BufChain
  import FreeList
  import Memory
  import Heap
  import KernelBuffers

  /** No buffer header lies in free memory. */
  ghost predicate OffHeap(pools: seq<Pool>, l: seq<FreeList.Block>) {
    forall i, x {:trigger x in Buffers(pools[i])} ::
      0 <= i < |pools| && x in Buffers(pools[i]) ==> !FreeList.IsFree(l, x)
  }

  /** What `getmem` answers for a pool, and the free list it leaves. */
  function PoolMemory(l: seq<FreeList.Block>, bufsiz: int, numbufs: int): (seq<FreeList.Block>, Option<int>) {
    FreeList.Getmem(l, FreeList.RoundMb(numbufs * BufSize(bufsiz)))
  }

  lemma PoolBytes(bufsiz: int, numbufs: int)
    requires BP_MINB <= bufsiz <= BP_MAXB && 1 <= numbufs <= BP_MAXN
    ensures 0 < numbufs * BufSize(bufsiz) <= FreeList.WORD - 8
  {
    SizeBounds(bufsiz);
    hide BufSize;
    Product(numbufs, BufSize(bufsiz), BP_MAXN, BP_MAXB + 4);
  }

  lemma SizeBounds(bufsiz: int)
    requires BP_MINB <= bufsiz <= BP_MAXB
    ensures 0 < BufSize(bufsiz) <= BP_MAXB + 4
  {
  }

  lemma Product(a: int, b: int, c: int, d: int)
    requires 0 < a <= c && 0 < b <= d
    ensures 0 < a * b <= c * d
  {
    assert a * b <= c * b <= c * d;
  }

  /** The memory of a new pool overlaps no buffer, and its own buffers are off the heap then. */
  lemma FreshMemory(pools: seq<Pool>, l: seq<FreeList.Block>, bufsiz: int, numbufs: int)
    requires FreeList.WellFormed(l) && OffHeap(pools, l)
    requires BP_MINB <= bufsiz <= BP_MAXB && 1 <= numbufs <= BP_MAXN && PoolMemory(l, bufsiz, numbufs).1.Some?
    ensures var (m, a) := PoolMemory(l, bufsiz, numbufs);
            && a.value > 0 && OffHeap(pools, m)
            && (forall i, x {:trigger x in Buffers(pools[i])} :: 0 <= i < |pools| && x in Buffers(pools[i]) ==>
                  !(a.value <= x < a.value + numbufs * BufSize(bufsiz)))
            && (forall sem :: OffHeap(pools + [Pool(sem, PoolBufs(a.value, bufsiz, numbufs), {}, 0)], m))
  {
    var n := numbufs * BufSize(bufsiz);
    PoolBytes(bufsiz, numbufs);
    hide BufSize, FreeList.RoundMb, FreeList.Getmem, FreeList.WellFormed, FreeList.IsFree, FreeList.GoodRange;
    Memory.RoundMbFacts(n);
    Memory.GetmemBytes(l, FreeList.RoundMb(n));
    var (m, a) := PoolMemory(l, bufsiz, numbufs);
    GoodStart(a.value, FreeList.RoundMb(n));
    forall i, x | 0 <= i < |pools| && x in Buffers(pools[i])
      ensures !FreeList.IsFree(m, x) && !(a.value <= x < a.value + n)
    {
      assert Memory.InRange(a.value, FreeList.RoundMb(n), x) ==> FreeList.IsFree(l, x);
    }
    forall sem
      ensures OffHeap(pools + [Pool(sem, PoolBufs(a.value, bufsiz, numbufs), {}, 0)], m)
    {
      NewOffHeap(pools, l, m, a.value, bufsiz, numbufs, sem);
    }
  }

  lemma GoodStart(a: int, n: int)
    requires FreeList.GoodRange(a, n)
    ensures a > 0
  {
  }

  lemma NewOffHeap(pools: seq<Pool>, l: seq<FreeList.Block>, m: seq<FreeList.Block>, a: int, bufsiz: int, numbufs: nat,
                   sem: int)
    requires OffHeap(pools, m) && a > 0 && bufsiz >= 0
    requires forall x :: FreeList.IsFree(m, x) ==> !(a <= x < a + numbufs * BufSize(bufsiz))
    ensures OffHeap(pools + [Pool(sem, PoolBufs(a, bufsiz, numbufs), {}, 0)], m)
  {
    var b := Pool(sem, PoolBufs(a, bufsiz, numbufs), {}, 0);
    NewBuffers(a, bufsiz, numbufs, sem);
    hide Buffers, FreeList.IsFree, BufSize, PoolShape;
    var q := pools + [b];
    assert forall i {:trigger q[i]} :: 0 <= i < |q| ==> q[i] == if i < |pools| then pools[i] else b;
  }

  predicate GoodRequest(bufsiz: int, numbufs: int, pools: seq<Pool>) {
    BP_MINB <= bufsiz <= BP_MAXB && 1 <= numbufs <= BP_MAXN && |pools| < NBPOOLS
  }

  lemma PoolsAfter(s: KState, bufsiz: int, numbufs: int, mem: Option<int>)
    ensures var pools := MkbufpoolOp(s, bufsiz, numbufs, mem).pools;
            pools == s.pools || (mem.Some? && numbufs >= 1 && exists sem ::
              pools == s.pools + [Pool(sem, PoolBufs(mem.value, bufsiz, numbufs), {}, 0)])
    ensures !GoodRequest(bufsiz, numbufs, s.pools) ==> MkbufpoolOp(s, bufsiz, numbufs, mem) == s
  {
    hide FindSem, PoolBufs;
  }

  class MemoryPools {
    const pools: KernelBuffers.BufferPools
    const heap: Heap.Heap

    ghost predicate Valid()
      reads this, pools, pools.kernel, pools.kernel.queuetab, pools.kernel.proctab, pools.kernel.semtab
      reads pools.table, pools.table.buftab, heap
    {
      && pools.Valid() && heap.Valid() && OffHeap(pools.table.pools, heap.free)
      && (heap as object) !in {pools.kernel as object, pools.table}
    }

    /** Boot; the arguments are those of the heap and the contents of memory. */
    constructor (end: int, nullstk: int, junk: int, memory: Words)
      requires 0 < end <= 640 * 1024 - 16 && 0 < nullstk <= FreeList.MAXADDR - 1024 * 1024 - 8
      ensures Valid() && Inv(pools.kernel.st) && pools.kernel.st == Boot()
    {
      pools := new KernelBuffers.BufferPools(memory);
      heap := new Heap.Heap(end, nullstk, junk);
    }

    /** mkbufpool.c with the memory it gets from the heap. */
    method Mkbufpool(bufsiz: int, numbufs: int) returns (r: int)
      requires Valid() && Inv(pools.kernel.st)
      modifies heap, pools.kernel, pools.kernel.queuetab, pools.kernel.proctab, pools.kernel.semtab
      modifies pools.table, pools.table.buftab
      ensures Valid() && Inv(pools.kernel.st)
      ensures var s, l := old(pools.kernel.st), old(heap.free);
              var m := PoolMemory(l, bufsiz, numbufs);
              if GoodRequest(bufsiz, numbufs, s.pools)
              then heap.free == m.0 && pools.kernel.st == MkbufpoolOp(s, bufsiz, numbufs, m.1)
              else heap.free == l && pools.kernel.st == s && r == SYSERR
    {
      ghost var s, l := pools.kernel.st, heap.free;
      hide Inv, OffHeap, BufSize, MkbufpoolOp, FreeList.Getmem, FreeList.RoundMb;
      if bufsiz < BP_MINB || bufsiz > BP_MAXB || numbufs < 1 || numbufs > BP_MAXN || pools.table.nbpools >= NBPOOLS {
        return SYSERR;
      }
      PoolBytes(bufsiz, numbufs);
      var mem := heap.Getmem(numbufs * BufSize(bufsiz));
      assert (heap.free, mem) == PoolMemory(l, bufsiz, numbufs);
      PoolsOffHeap(s, l, bufsiz, numbufs);
      r := pools.Mkbufpool(bufsiz, numbufs, mem);
    }

    /** Other allocations leave the buffers alone. */
    method Getmem(nbytes: int) returns (r: Option<int>)
      requires Valid() && 0 <= nbytes < FreeList.WORD
      modifies heap
      ensures Valid()
      ensures nbytes != 0 ==> (heap.free, r) == FreeList.Getmem(old(heap.free), FreeList.RoundMb(nbytes))
    {
      if nbytes != 0 { GetmemOffHeap(pools.table.pools, heap.free, nbytes); }
      hide OffHeap, FreeList.Getmem, FreeList.RoundMb;
      r := heap.Getmem(nbytes);
    }

    method Getstk(nbytes: int) returns (r: Option<int>)
      requires Valid() && 0 <= nbytes < FreeList.WORD
      modifies heap
      ensures Valid()
      ensures nbytes != 0 ==> (heap.free, r) == FreeList.Getstk(old(heap.free), FreeList.RoundMb(nbytes))
    {
      if nbytes != 0 { GetstkOffHeap(pools.table.pools, heap.free, nbytes); }
      hide OffHeap, FreeList.Getstk, FreeList.RoundMb;
      r := heap.Getstk(nbytes);
    }

    /** A release by an owner of memory that holds no buffer. */
    method Freemem(blkaddr: int, nbytes: int) returns (ok: bool)
      requires Valid() && 0 <= nbytes < FreeList.WORD
      requires nbytes != 0 && heap.minheap <= blkaddr <= heap.maxheap ==>
                 FreeList.GoodRange(blkaddr, FreeList.RoundMb(nbytes))
      requires forall i, x {:trigger x in Buffers(pools.table.pools[i])} ::
                 0 <= i < |pools.table.pools| && x in Buffers(pools.table.pools[i]) ==>
                   !Memory.InRange(blkaddr, FreeList.RoundMb(nbytes), x)
      modifies heap
      ensures Valid()
      ensures ok ==> (heap.free, ok) == FreeList.Freemem(old(heap.free), blkaddr, FreeList.RoundMb(nbytes))
    {
      if nbytes != 0 && heap.minheap <= blkaddr <= heap.maxheap {
        FreememOffHeap(pools.table.pools, heap.free, blkaddr, FreeList.RoundMb(nbytes));
      }
      hide OffHeap, FreeList.Freemem, FreeList.RoundMb, FreeList.GoodRange;
      ok := heap.Freemem(blkaddr, nbytes);
    }
  }

  lemma GetmemOffHeap(pools: seq<Pool>, l: seq<FreeList.Block>, nbytes: int)
    requires FreeList.WellFormed(l) && OffHeap(pools, l) && 0 < nbytes < FreeList.WORD
    ensures OffHeap(pools, FreeList.Getmem(l, FreeList.RoundMb(nbytes)).0)
  {
    hide FreeList.RoundMb, FreeList.WellFormed, FreeList.IsFree, FreeList.Getmem, Buffers;
    Memory.RoundMbFacts(nbytes);
    if FreeList.RoundMb(nbytes) != 0 {
      Memory.GetmemBytes(l, FreeList.RoundMb(nbytes));
    } else if l == [] {
      NothingFree(nbytes);
    } else {
      Memory.GetmemOverflow(l, nbytes);
    }
  }

  lemma GetstkOffHeap(pools: seq<Pool>, l: seq<FreeList.Block>, nbytes: int)
    requires FreeList.WellFormed(l) && OffHeap(pools, l) && 0 < nbytes < FreeList.WORD
    ensures OffHeap(pools, FreeList.Getstk(l, FreeList.RoundMb(nbytes)).0)
  {
    hide FreeList.RoundMb, FreeList.WellFormed, FreeList.IsFree, FreeList.Getstk, Buffers;
    Memory.RoundMbFacts(nbytes);
    if FreeList.RoundMb(nbytes) != 0 {
      Memory.GetstkBytes(l, FreeList.RoundMb(nbytes));
    } else if l == [] {
      NothingFree(nbytes);
    } else {
      Memory.GetstkOverflow(l, nbytes);
    }
  }

  lemma NothingFree(nbytes: int)
    ensures FreeList.Getmem([], FreeList.RoundMb(nbytes)).0 == [] == FreeList.Getstk([], FreeList.RoundMb(nbytes)).0
  {
  }

  lemma FreememOffHeap(pools: seq<Pool>, l: seq<FreeList.Block>, a: int, n: int)
    requires FreeList.WellFormed(l) && OffHeap(pools, l) && FreeList.GoodRange(a, n)
    requires forall i, x {:trigger x in Buffers(pools[i])} ::
               0 <= i < |pools| && x in Buffers(pools[i]) ==> !Memory.InRange(a, n, x)
    ensures OffHeap(pools, FreeList.Freemem(l, a, n).0)
  {
    Memory.FreememBytes(l, a, n);
    hide FreeList.WellFormed, FreeList.IsFree, FreeList.Freemem, Buffers, FreeList.GoodRange;
  }

  /** After `mkbufpool` every buffer, old or new, is off the heap. */
  lemma PoolsOffHeap(s: KState, l: seq<FreeList.Block>, bufsiz: int, numbufs: int)
    requires FreeList.WellFormed(l) && OffHeap(s.pools, l) && GoodRequest(bufsiz, numbufs, s.pools)
    ensures var (m, mem) := PoolMemory(l, bufsiz, numbufs);
            && OffHeap(MkbufpoolOp(s, bufsiz, numbufs, mem).pools, m)
            && (mem.Some? ==> mem.value > 0 && forall i, x {:trigger x in Buffers(s.pools[i])} ::
                  0 <= i < |s.pools| && x in Buffers(s.pools[i]) ==>
                    !(mem.value <= x < mem.value + numbufs * BufSize(bufsiz)))
  {
    var (m, mem) := PoolMemory(l, bufsiz, numbufs);
    PoolsAfter(s, bufsiz, numbufs, mem);
    if mem.Some? {
      hide MkbufpoolOp, OffHeap, BufSize, PoolMemory, FreeList.WellFormed, PoolBufs, Buffers;
      FreshMemory(s.pools, l, bufsiz, numbufs);
    } else {
      assert m == l;
    }
  }
}
