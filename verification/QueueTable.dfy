/**
 `queuetab`: every process queue as an intrusive doubly linked list in one table.  The first
 NPROC entries are the processes; after them each queue owns a head and a tail entry.
 `Linked` ties a stretch of links to the sequence of process ids it denotes.
 */
module QueueTable {
  import opened KernelState
  import opened KernelInvariant

  const NQENT := NPROC + 4 + NSEM + NSEM

  datatype QEntry = QEntry(qkey: int, qnext: int, qprev: int)

  function QueueHead(k: int): int { NPROC + 2 * k }
  function QueueTail(k: int): int { QueueHead(k) + 1 }

  /** Entry `i` of the list between head `h` and tail `h + 1`; -1 is the head, |l| the tail. */
  function Node(h: int, l: seq<int>, i: int): int {
    if i < 0 then h else if i < |l| then l[i] else h + 1
  }

  ghost predicate ValidIds(l: seq<int>) { NoDup(l) && forall i :: 0 <= i < |l| ==> 0 <= l[i] < NPROC }

  /** Forward and backward links between consecutive nodes are each other's inverse. */
  ghost predicate Linked(tab: seq<QEntry>, h: int, l: seq<int>) {
    && |tab| == NQENT && NPROC <= h < NQENT - 1 && ValidIds(l)
    && tab[h].qkey == MAXKEY && tab[h + 1].qkey == MINKEY
    && (forall i {:trigger Node(h, l, i)} :: 0 <= i <= |l| ==>
          tab[Node(h, l, i - 1)].qnext == Node(h, l, i) && tab[Node(h, l, i)].qprev == Node(h, l, i - 1))
  }

  /** No process is on two queues. */
  ghost predicate Disjoint(lists: seq<seq<int>>) {
    forall j, k, q {:trigger q in lists[j], q in lists[k]} ::
      0 <= j < |lists| && 0 <= k < |lists| && q in lists[j] && q in lists[k] ==> j == k
  }

  /** The table denotes exactly these queues and process keys. */
  ghost predicate Denotes(tab: seq<QEntry>, keys: seq<int>, lists: seq<seq<int>>) {
    && |tab| == NQENT && |keys| == NPROC && |lists| == NLISTS
    && (forall p :: 0 <= p < NPROC ==> tab[p].qkey == keys[p])
    && (forall k {:trigger lists[k]} :: 0 <= k < NLISTS ==> Linked(tab, QueueHead(k), lists[k]))
    && Disjoint(lists)
  }

  ghost predicate SameLinks(a: QEntry, b: QEntry) { a.qnext == b.qnext && a.qprev == b.qprev }

  /** Lists whose nodes were not touched stay linked. */
  lemma LinkedFrame(tab: seq<QEntry>, tab': seq<QEntry>, h: int, l: seq<int>)
    requires Linked(tab, h, l) && |tab'| == |tab|
    requires SameLinks(tab[h], tab'[h]) && SameLinks(tab[h + 1], tab'[h + 1])
    requires tab'[h].qkey == tab[h].qkey && tab'[h + 1].qkey == tab[h + 1].qkey
    requires forall i :: 0 <= i < |l| ==> SameLinks(tab[l[i]], tab'[l[i]])
    ensures Linked(tab', h, l)
  {
    forall i | 0 <= i <= |l|
      ensures tab'[Node(h, l, i - 1)].qnext == Node(h, l, i) && tab'[Node(h, l, i)].qprev == Node(h, l, i - 1)
    {
      var prev := Node(h, l, i - 1);
      assert SameLinks(tab[prev], tab'[prev]);
      assert SameLinks(tab[Node(h, l, i)], tab'[Node(h, l, i)]);
    }
  }

  /** The entries of `tab'` after linking `p` between nodes i-1 and i. */
  ghost predicate LinkedIn(tab: seq<QEntry>, tab': seq<QEntry>, h: int, l: seq<int>, i: nat, p: int)
    requires Linked(tab, h, l) && i <= |l| && 0 <= p < NPROC
  {
    var prev, next := Node(h, l, i - 1), Node(h, l, i);
    && |tab'| == |tab|
    && tab'[p].qnext == next && tab'[p].qprev == prev
    && tab'[prev].qnext == p && tab'[prev].qprev == tab[prev].qprev
    && tab'[next].qprev == p && tab'[next].qnext == tab[next].qnext
    && (forall x :: 0 <= x < NQENT && x != p && x != prev && x != next ==> SameLinks(tab[x], tab'[x]))
    && tab'[h].qkey == tab[h].qkey && tab'[h + 1].qkey == tab[h + 1].qkey
  }

  /** Nodes of a well-formed list are distinct. */
  lemma NodeDistinct(h: int, l: seq<int>, i: int, j: int)
    requires ValidIds(l) && h >= NPROC && -1 <= i < j <= |l|
    ensures Node(h, l, i) != Node(h, l, j)
  {
  }

  lemma InsertNode(h: int, l: seq<int>, i: nat, p: int, j: int)
    requires i <= |l| && -1 <= j <= |l| + 1
    ensures Node(h, InsertAt(l, i, p), j) == NodeWith(h, l, i, p, j)
  {
  }

  lemma RemoveNode(h: int, l: seq<int>, i: nat, j: int)
    requires i < |l| && -1 <= j < |l|
    ensures Node(h, RemoveAt(l, i), j) == if j < i then Node(h, l, j) else Node(h, l, j + 1)
  {
  }

  lemma InsertAtIds(l: seq<int>, i: nat, p: int)
    requires ValidIds(l) && i <= |l| && 0 <= p < NPROC && p !in l
    ensures ValidIds(InsertAt(l, i, p)) && |InsertAt(l, i, p)| == |l| + 1
  {
    var l' := InsertAt(l, i, p);
    InsertAtFacts(l, i, p);
    forall j | 0 <= j < |l'|
      ensures 0 <= l'[j] < NPROC
    {
      InsertAtElem(l, i, p, j);
    }
  }

  /** Node `k` after `p` went in at place `i`. */
  function NodeWith(h: int, l: seq<int>, i: nat, p: int, k: int): int {
    if k == i then p else if k < i then Node(h, l, k) else Node(h, l, k - 1)
  }

  lemma LinkIn(tab: seq<QEntry>, tab': seq<QEntry>, h: int, l: seq<int>, i: nat, p: int)
    requires Linked(tab, h, l) && i <= |l| && 0 <= p < NPROC && p !in l && LinkedIn(tab, tab', h, l, i, p)
    ensures Linked(tab', h, InsertAt(l, i, p))
  {
    var l' := InsertAt(l, i, p);
    InsertAtIds(l, i, p);
    assert forall j {:trigger Node(h, l', j)} :: -1 <= j <= |l'| ==> 0 <= Node(h, l', j) < NQENT;
    forall j | 0 <= j <= |l'|
      ensures tab'[Node(h, l', j - 1)].qnext == Node(h, l', j) && tab'[Node(h, l', j)].qprev == Node(h, l', j - 1)
    {
      hide InsertAt, ValidIds, Node;
      InsertNode(h, l, i, p, j);
      InsertNode(h, l, i, p, j - 1);
      LinkInStep(tab, tab', h, l, i, p, j);
    }
    hide InsertAt, ValidIds, Node;
  }

  lemma LinkInStep(tab: seq<QEntry>, tab': seq<QEntry>, h: int, l: seq<int>, i: nat, p: int, j: nat)
    requires Linked(tab, h, l) && i <= |l| && 0 <= p < NPROC && p !in l && LinkedIn(tab, tab', h, l, i, p)
    requires j <= |l| + 1
    ensures var a, b := NodeWith(h, l, i, p, j - 1), NodeWith(h, l, i, p, j);
            0 <= a < NQENT && 0 <= b < NQENT && tab'[a].qnext == b && tab'[b].qprev == a
  {
    var prev, next := Node(h, l, i - 1), Node(h, l, i);
    if j < i {
      assert Node(h, l, j) != next by { NodeDistinct(h, l, j, i); }
      NodeDistinct(h, l, j - 1, i - 1);
      NodeDistinct(h, l, j - 1, i);
    } else if j > i + 1 {
      NodeDistinct(h, l, i - 1, j - 2);
      NodeDistinct(h, l, i - 1, j - 1);
      NodeDistinct(h, l, i, j - 1);
      assert Node(h, l, j - 1) == Node(h, l, (j - 1));
    }
  }

  ghost predicate LinkedOut(tab: seq<QEntry>, tab': seq<QEntry>, h: int, l: seq<int>, i: nat)
    requires Linked(tab, h, l) && i < |l|
  {
    var prev, next := Node(h, l, i - 1), Node(h, l, i + 1);
    && |tab'| == |tab|
    && tab'[prev].qnext == next && tab'[prev].qprev == tab[prev].qprev
    && tab'[next].qprev == prev && tab'[next].qnext == tab[next].qnext
    && (forall x :: 0 <= x < NQENT && x != l[i] && x != prev && x != next ==> SameLinks(tab[x], tab'[x]))
    && tab'[h].qkey == tab[h].qkey && tab'[h + 1].qkey == tab[h + 1].qkey
  }

  lemma LinkOutBefore(tab: seq<QEntry>, tab': seq<QEntry>, h: int, l: seq<int>, i: nat, j: nat)
    requires Linked(tab, h, l) && i < |l| && LinkedOut(tab, tab', h, l, i) && j < i
    ensures tab'[Node(h, l, j - 1)].qnext == Node(h, l, j) && tab'[Node(h, l, j)].qprev == Node(h, l, j - 1)
  {
    NodeDistinct(h, l, j, i);
    NodeDistinct(h, l, j, i + 1);
    NodeDistinct(h, l, j - 1, i);
    NodeDistinct(h, l, j - 1, i - 1);
    NodeDistinct(h, l, j - 1, i + 1);
    var a, b := Node(h, l, j - 1), Node(h, l, j);
    assert tab[a].qnext == b && tab[b].qprev == a;
    hide Node, ValidIds;
  }

  lemma LinkOutAfter(tab: seq<QEntry>, tab': seq<QEntry>, h: int, l: seq<int>, i: nat, j: nat)
    requires Linked(tab, h, l) && i < j < |l| && LinkedOut(tab, tab', h, l, i)
    ensures tab'[Node(h, l, j)].qnext == Node(h, l, j + 1) && tab'[Node(h, l, j + 1)].qprev == Node(h, l, j)
  {
    NodeDistinct(h, l, i, j);
    NodeDistinct(h, l, i - 1, j);
    NodeDistinct(h, l, i, j + 1);
    NodeDistinct(h, l, i - 1, j + 1);
    NodeDistinct(h, l, i + 1, j + 1);
    var a, b := Node(h, l, j), Node(h, l, j + 1);
    assert tab[Node(h, l, (j + 1) - 1)].qnext == b && tab[b].qprev == Node(h, l, (j + 1) - 1);
    hide Node, ValidIds;
  }

  lemma RemoveAtIds(l: seq<int>, i: nat)
    requires ValidIds(l) && i < |l|
    ensures ValidIds(RemoveAt(l, i)) && |RemoveAt(l, i)| == |l| - 1
  {
    var l' := RemoveAt(l, i);
    RemoveAtNoDup(l, i);
    forall j | 0 <= j < |l'|
      ensures 0 <= l'[j] < NPROC
    {
      RemoveAtElem(l, i, j);
    }
  }

  lemma LinkOut(tab: seq<QEntry>, tab': seq<QEntry>, h: int, l: seq<int>, i: nat)
    requires Linked(tab, h, l) && i < |l| && LinkedOut(tab, tab', h, l, i)
    ensures Linked(tab', h, RemoveAt(l, i))
  {
    var l' := RemoveAt(l, i);
    RemoveAtIds(l, i);
    assert forall j {:trigger Node(h, l', j)} :: -1 <= j <= |l'| ==> 0 <= Node(h, l', j) < NQENT;
    hide RemoveAt, ValidIds;
    forall j | 0 <= j <= |l'|
      ensures tab'[Node(h, l', j - 1)].qnext == Node(h, l', j) && tab'[Node(h, l', j)].qprev == Node(h, l', j - 1)
    {
      hide Node;
      RemoveNode(h, l, i, j);
      RemoveNode(h, l, i, j - 1);
      if j < i {
        LinkOutBefore(tab, tab', h, l, i, j);
      } else if j > i {
        LinkOutAfter(tab, tab', h, l, i, j);
      }
    }
  }

  // ---- the whole table -------------------------------------------------------------

  ghost predicate OnNoList(lists: seq<seq<int>>, p: int) { forall k :: 0 <= k < |lists| ==> p !in lists[k] }

  lemma NodeOwner(lists: seq<seq<int>>, k: int, i: int, j: int, m: int)
    requires Disjoint(lists) && 0 <= k < |lists| == NLISTS && 0 <= j < |lists| && j != k
    requires forall n :: 0 <= n < NLISTS ==> ValidIds(lists[n])
    requires -1 <= i <= |lists[k]| && -1 <= m <= |lists[j]|
    ensures Node(QueueHead(k), lists[k], i) != Node(QueueHead(j), lists[j], m)
  {
    if 0 <= i < |lists[k]| && 0 <= m < |lists[j]| {
      assert lists[k][i] in lists[k] && lists[j][m] in lists[j];
    }
  }

  lemma DenotesInsert(tab: seq<QEntry>, tab': seq<QEntry>, keys: seq<int>, keys': seq<int>, lists: seq<seq<int>>,
                      k: int, i: nat, p: int)
    requires Denotes(tab, keys, lists) && 0 <= k < NLISTS && i <= |lists[k]| && 0 <= p < NPROC && OnNoList(lists, p)
    requires LinkedIn(tab, tab', QueueHead(k), lists[k], i, p)
    requires |keys'| == NPROC && (forall q :: 0 <= q < NPROC ==> tab'[q].qkey == keys'[q])
    requires forall q :: NPROC <= q < NQENT ==> tab'[q].qkey == tab[q].qkey
    ensures Denotes(tab', keys', lists[k := InsertAt(lists[k], i, p)])
  {
    var lists' := lists[k := InsertAt(lists[k], i, p)];
    LinkIn(tab, tab', QueueHead(k), lists[k], i, p);
    InsertAtFacts(lists[k], i, p);
    hide InsertAt;
    forall j | 0 <= j < NLISTS && j != k
      ensures Linked(tab', QueueHead(j), lists'[j])
    {
      OtherListUntouched(tab, lists, k, i, j, p);
      OtherListUntouched(tab, lists, k, i - 1, j, p);
      LinkedFrame(tab, tab', QueueHead(j), lists[j]);
    }
    forall a, b, q | 0 <= a < NLISTS && 0 <= b < NLISTS && q in lists'[a] && q in lists'[b]
      ensures a == b
    {
      if q == p {} else { assert q in lists[a] && q in lists[b]; }
    }
  }

  /** A node of list k, and a process on no list, are different from every node of list j. */
  lemma OtherListUntouched(tab: seq<QEntry>, lists: seq<seq<int>>, k: int, i: int, j: int, p: int)
    requires |lists| == NLISTS
    requires (forall n {:trigger lists[n]} :: 0 <= n < NLISTS ==> Linked(tab, QueueHead(n), lists[n]))
    requires Disjoint(lists)
    requires 0 <= k < NLISTS && 0 <= j < NLISTS && j != k && -1 <= i <= |lists[k]| && 0 <= p < NPROC
    ensures var x := Node(QueueHead(k), lists[k], i);
            x != QueueHead(j) && x != QueueTail(j) && forall m :: 0 <= m < |lists[j]| ==> x != lists[j][m]
    ensures p != QueueHead(j) && p != QueueTail(j)
    ensures (p !in lists[j] ==> forall m :: 0 <= m < |lists[j]| ==> p != lists[j][m])
  {
    NodeOwner(lists, k, i, j, -1);
    NodeOwner(lists, k, i, j, |lists[j]|);
    forall m | 0 <= m < |lists[j]|
      ensures Node(QueueHead(k), lists[k], i) != lists[j][m]
    {
      NodeOwner(lists, k, i, j, m);
    }
  }

  lemma DenotesRemove(tab: seq<QEntry>, tab': seq<QEntry>, keys: seq<int>, lists: seq<seq<int>>, k: int, i: nat)
    requires Denotes(tab, keys, lists) && 0 <= k < NLISTS && i < |lists[k]|
    requires LinkedOut(tab, tab', QueueHead(k), lists[k], i)
    requires forall q :: 0 <= q < NQENT ==> tab'[q].qkey == tab[q].qkey
    ensures Denotes(tab', keys, lists[k := RemoveAt(lists[k], i)])
  {
    var l := lists[k];
    var lists' := lists[k := RemoveAt(l, i)];
    LinkOut(tab, tab', QueueHead(k), l, i);
    RemoveAtMembers(l, i);
    hide RemoveAt;
    forall j | 0 <= j < NLISTS && j != k
      ensures Linked(tab', QueueHead(j), lists'[j])
    {
      OtherListUntouched(tab, lists, k, i - 1, j, 0);
      OtherListUntouched(tab, lists, k, i, j, 0);
      OtherListUntouched(tab, lists, k, i + 1, j, 0);
      LinkedFrame(tab, tab', QueueHead(j), lists[j]);
    }
    forall a, b, q | 0 <= a < NLISTS && 0 <= b < NLISTS && q in lists'[a] && q in lists'[b]
      ensures a == b
    {
      assert q in lists[a] && q in lists[b];
    }
  }

  lemma RemoveAtMembers(l: seq<int>, i: nat)
    requires i < |l|
    ensures forall q :: q in RemoveAt(l, i) ==> q in l
  {
  }

  // ---- the assignments of the C code, as table updates -----------------------------

  /** Link `p`, with key `key`, between entries `prev` and `next`. */
  function LinkBetween(tab: seq<QEntry>, p: int, prev: int, next: int, key: int): seq<QEntry>
    requires 0 <= p < |tab| && 0 <= prev < |tab| && 0 <= next < |tab|
  {
    var t1 := tab[p := QEntry(key, next, prev)];
    var t2 := t1[prev := t1[prev].(qnext := p)];
    t2[next := t2[next].(qprev := p)]
  }

  /** Make the neighbours `prev` and `next` of an entry point past it. */
  function Bypass(tab: seq<QEntry>, prev: int, next: int): seq<QEntry>
    requires 0 <= prev < |tab| && 0 <= next < |tab|
  {
    var t1 := tab[prev := tab[prev].(qnext := next)];
    t1[next := t1[next].(qprev := prev)]
  }

  lemma NodeInRange(h: int, l: seq<int>, i: int)
    requires ValidIds(l) && NPROC <= h < NQENT - 1 && -1 <= i <= |l|
    ensures 0 <= Node(h, l, i) < NQENT
    ensures Node(h, l, -1) == h && Node(h, l, |l|) == h + 1
  {
  }

  lemma LinkBetweenLinks(tab: seq<QEntry>, h: int, l: seq<int>, i: nat, p: int, key: int)
    requires Linked(tab, h, l) && i <= |l| && 0 <= p < NPROC && p !in l
    ensures 0 <= Node(h, l, i - 1) < NQENT && 0 <= Node(h, l, i) < NQENT
    ensures var tab' := LinkBetween(tab, p, Node(h, l, i - 1), Node(h, l, i), key);
            && LinkedIn(tab, tab', h, l, i, p) && tab'[p].qkey == key
            && (forall x :: 0 <= x < NQENT && x != p ==> tab'[x].qkey == tab[x].qkey)
  {
    NodeInRange(h, l, i - 1);
    NodeInRange(h, l, i);
    NodeDistinct(h, l, i - 1, i);
    var prev, next := Node(h, l, i - 1), Node(h, l, i);
    assert p != prev && p != next by {
      if 0 < i { assert l[i - 1] in l; }
      if i < |l| { assert l[i] in l; }
    }
    hide Node, ValidIds;
  }

  lemma DenotesLink(tab: seq<QEntry>, keys: seq<int>, lists: seq<seq<int>>, k: int, i: nat, p: int, key: int)
    requires Denotes(tab, keys, lists) && 0 <= k < NLISTS && i <= |lists[k]| && 0 <= p < NPROC && OnNoList(lists, p)
    ensures var h := QueueHead(k); var prev, next := Node(h, lists[k], i - 1), Node(h, lists[k], i);
            && 0 <= prev < NQENT && 0 <= next < NQENT
            && Denotes(LinkBetween(tab, p, prev, next, key), keys[p := key], lists[k := InsertAt(lists[k], i, p)])
  {
    var h, l := QueueHead(k), lists[k];
    assert Linked(tab, h, l) && p !in l;
    LinkBetweenLinks(tab, h, l, i, p, key);
    var tab' := LinkBetween(tab, p, Node(h, l, i - 1), Node(h, l, i), key);
    assert forall q :: 0 <= q < NPROC ==> tab'[q].qkey == keys[p := key][q];
    hide LinkBetween, InsertAt, Linked, Node, LinkedIn;
    DenotesInsert(tab, tab', keys, keys[p := key], lists, k, i, p);
  }

  lemma BypassLinks(tab: seq<QEntry>, h: int, l: seq<int>, i: nat)
    requires Linked(tab, h, l) && i < |l|
    ensures 0 <= l[i] < NPROC && tab[l[i]].qprev == Node(h, l, i - 1) && tab[l[i]].qnext == Node(h, l, i + 1)
    ensures 0 <= Node(h, l, i - 1) < NQENT && 0 <= Node(h, l, i + 1) < NQENT
    ensures var tab' := Bypass(tab, Node(h, l, i - 1), Node(h, l, i + 1));
            LinkedOut(tab, tab', h, l, i) && (forall x :: 0 <= x < NQENT ==> tab'[x].qkey == tab[x].qkey)
  {
    NodeInRange(h, l, i - 1);
    NodeInRange(h, l, i + 1);
    NodeDistinct(h, l, i - 1, i);
    NodeDistinct(h, l, i, i + 1);
    NodeDistinct(h, l, i - 1, i + 1);
    assert Node(h, l, i) == l[i];
    assert tab[Node(h, l, (i + 1) - 1)].qnext == Node(h, l, i + 1);
    hide Node, ValidIds;
  }

  /** Unlinking a process removes it from its list and from no other. */
  lemma DenotesUnlink(tab: seq<QEntry>, keys: seq<int>, lists: seq<seq<int>>, k: int, p: int)
    requires Denotes(tab, keys, lists) && 0 <= k < NLISTS && p in lists[k]
    ensures 0 <= p < NPROC && 0 <= tab[p].qprev < NQENT && 0 <= tab[p].qnext < NQENT
    ensures Denotes(Bypass(tab, tab[p].qprev, tab[p].qnext), keys, lists[k := Remove(lists[k], p)])
    ensures OnNoList(lists[k := Remove(lists[k], p)], p)
    ensures IndexOf(lists[k], p) + 1 < |lists[k]| ==> tab[p].qnext == lists[k][IndexOf(lists[k], p) + 1]
    ensures IndexOf(lists[k], p) + 1 == |lists[k]| ==> tab[p].qnext == QueueTail(k)
  {
    var h, l := QueueHead(k), lists[k];
    var i := IndexOf(l, p);
    assert Linked(tab, h, l);
    BypassLinks(tab, h, l, i);
    RemoveFacts(l, p);
    hide Bypass, Linked, LinkedOut;
    DenotesRemove(tab, Bypass(tab, tab[p].qprev, tab[p].qnext), keys, lists, k, i);
  }

  lemma FirstNode(tab: seq<QEntry>, keys: seq<int>, lists: seq<seq<int>>, k: int)
    requires Denotes(tab, keys, lists) && 0 <= k < NLISTS
    ensures tab[QueueHead(k)].qnext == (if lists[k] == [] then QueueTail(k) else lists[k][0])
    ensures tab[QueueTail(k)].qprev == (if lists[k] == [] then QueueHead(k) else lists[k][|lists[k]| - 1])
    ensures tab[QueueTail(k)].qkey == MINKEY
    ensures forall i :: 0 <= i < |lists[k]| ==> 0 <= lists[k][i] < NPROC
  {
    var h, l := QueueHead(k), lists[k];
    assert Linked(tab, h, l);
    assert Node(h, l, 0) == if l == [] then h + 1 else l[0];
    assert Node(h, l, |l|) == h + 1;
  }
}
