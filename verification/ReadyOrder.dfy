/**
 The ready list as the scheduler sees it: ids in order, priorities, and who has the CPU.
 Insertion by priority puts a newcomer behind everybody of at least its priority and never
 changes the order of those already there; a switch takes the first.
 */
module ReadyOrder {
  import opened KernelState
  import opened KernelInvariant
  import opened DeltaList

  datatype View = View(ready: seq<int>, prio: seq<int>, curr: int)

  /** `p` stands ahead of `q`. */
  predicate Before(l: seq<int>, p: int, q: int) { p in l && q in l && IndexOf(l, p) < IndexOf(l, q) }

  /** Nobody left; those in line keep their order; newcomers stand behind everybody of at least
      their priority. */
  ghost predicate Joins(v: View, w: View) {
    && w.curr == v.curr && w.prio == v.prio
    && (forall p {:trigger p in v.ready} :: p in v.ready ==> p in w.ready)
    && (forall p, q {:trigger Before(v.ready, p, q)} {:trigger Before(w.ready, p, q)} ::
          Before(v.ready, p, q) ==> Before(w.ready, p, q))
    && (forall p, x {:trigger Before(w.ready, p, x)} ::
          p in v.ready && x in w.ready && x !in v.ready && Key(v.prio, p) >= Key(v.prio, x) ==> Before(w.ready, p, x))
  }

  /** What holds between two views one kernel step apart, for everybody in line in both: (i)
      order is kept, (ii) a newcomer stands behind those of at least its priority, (iii) whoever
      got the CPU was ahead or has more priority. */
  ghost predicate Fair(v: View, w: View) {
    && (forall p, q {:trigger Before(v.ready, p, q)} {:trigger Before(w.ready, p, q)} ::
          Before(v.ready, p, q) && p in w.ready && q in w.ready ==> Before(w.ready, p, q))
    && (forall p, x {:trigger Before(w.ready, p, x)} ::
          p in v.ready && p in w.ready && x in w.ready && x !in v.ready && Key(w.prio, p) >= Key(w.prio, x) ==>
            Before(w.ready, p, x))
    && (forall p {:trigger p in w.ready} :: p in v.ready && p in w.ready && w.curr != v.curr ==>
          Before(v.ready, w.curr, p) || Key(w.prio, w.curr) > Key(w.prio, p))
  }

  // ---- lists -----------------------------------------------------------------------

  lemma BeforeIndex(l: seq<int>, i: nat, j: nat)
    requires NoDup(l) && i < j < |l|
    ensures Before(l, l[i], l[j])
  {
    IndexOfAt(l, i);
    IndexOfAt(l, j);
  }

  lemma InsertIndex(l: seq<int>, i: nat, x: int, p: int)
    requires NoDup(l) && i <= |l| && x !in l && p in l
    ensures NoDup(InsertAt(l, i, x)) && p in InsertAt(l, i, x) && x in InsertAt(l, i, x)
    ensures IndexOf(InsertAt(l, i, x), x) == i
    ensures IndexOf(InsertAt(l, i, x), p) == IndexOf(l, p) + if IndexOf(l, p) < i then 0 else 1
  {
    InsertAtFacts(l, i, x);
    var k := IndexOf(l, p);
    InsertAtElem(l, i, x, i);
    InsertAtElem(l, i, x, if k < i then k else k + 1);
    hide InsertAt, NoDup;
    IndexOfAt(InsertAt(l, i, x), i);
    IndexOfAt(InsertAt(l, i, x), if k < i then k else k + 1);
  }

  lemma RemoveIndex(l: seq<int>, i: nat, p: int, q: int)
    requires NoDup(l) && i < |l| && Before(l, p, q) && p in RemoveAt(l, i) && q in RemoveAt(l, i)
    ensures Before(RemoveAt(l, i), p, q)
  {
    RemoveAtNoDup(l, i);
    var j, k := IndexOf(l, p), IndexOf(l, q);
    var j', k' := if j < i then j else j - 1, if k < i then k else k - 1;
    assert j != i && k != i;
    RemoveAtElem(l, i, j');
    RemoveAtElem(l, i, k');
    hide RemoveAt, NoDup;
    IndexOfAt(RemoveAt(l, i), j');
    IndexOfAt(RemoveAt(l, i), k');
  }

  // ---- joining the line ------------------------------------------------------------

  function Enter(v: View, x: int): View {
    v.(ready := InsertAt(v.ready, KeyPos(v.ready, v.prio, Key(v.prio, x)), x))
  }

  /** Everybody of at least the newcomer's priority is in front of its place. */
  lemma InFront(l: seq<int>, prio: seq<int>, key: int, p: int)
    requires Descending(l, prio) && p in l && Key(prio, p) >= key
    ensures IndexOf(l, p) < KeyPos(l, prio, key)
  {
    var i := KeyPos(l, prio, key);
    if i < |l| { assert forall j :: i <= j < |l| ==> Key(prio, l[i]) >= Key(prio, l[j]); }
  }

  lemma EnterJoins(v: View, x: int)
    requires NoDup(v.ready) && Descending(v.ready, v.prio) && x !in v.ready
    ensures Joins(v, Enter(v, x))
    ensures NoDup(Enter(v, x).ready) && Descending(Enter(v, x).ready, v.prio)
    ensures forall q :: q in Enter(v, x).ready <==> q in v.ready || q == x
  {
    var w := Enter(v, x);
    var i := KeyPos(v.ready, v.prio, Key(v.prio, x));
    InsertAtFacts(v.ready, i, x);
    EnterSorted(v, x);
    forall p | p in v.ready
      ensures p in w.ready && (Key(v.prio, p) >= Key(v.prio, x) ==> Before(w.ready, p, x))
    {
      InsertIndex(v.ready, i, x, p);
      if Key(v.prio, p) >= Key(v.prio, x) { InFront(v.ready, v.prio, Key(v.prio, x), p); }
    }
    forall p, q | Before(v.ready, p, q)
      ensures Before(w.ready, p, q)
    {
      InsertIndex(v.ready, i, x, p);
      InsertIndex(v.ready, i, x, q);
    }
    hide KeyPos, InsertAt, NoDup, Descending;
  }

  lemma EnterSorted(v: View, x: int)
    requires Descending(v.ready, v.prio)
    ensures Descending(Enter(v, x).ready, v.prio)
  {
    var l, i, r := v.ready, KeyPos(v.ready, v.prio, Key(v.prio, x)), Enter(v, x).ready;
    forall a, b | 0 <= a < b < |r|
      ensures Key(v.prio, r[a]) >= Key(v.prio, r[b])
    {
      InsertAtElem(l, i, x, a);
      InsertAtElem(l, i, x, b);
      hide InsertAt;
      if a == i { assert Key(v.prio, l[i]) < Key(v.prio, x); }
    }
  }

  lemma JoinsRefl(v: View)
    ensures Joins(v, v)
  {
  }

  lemma JoinsTrans(u: View, v: View, w: View)
    requires Joins(u, v) && Joins(v, w)
    ensures Joins(u, w)
  {
    forall p, x | p in u.ready && x in w.ready && x !in u.ready && Key(u.prio, p) >= Key(u.prio, x)
      ensures Before(w.ready, p, x)
    {
      if x in v.ready { assert Before(v.ready, p, x); }
    }
    hide Before;
  }

  // ---- switching -------------------------------------------------------------------

  /** The first in line gets the CPU. */
  function Pop(v: View): View
    requires v.ready != []
  {
    v.(ready := v.ready[1..], curr := v.ready[0])
  }

  lemma TailBefore(l: seq<int>, p: int, q: int)
    requires NoDup(l) && l != [] && Before(l, p, q) && p in l[1..] && q in l[1..]
    ensures Before(l[1..], p, q)
  {
    assert l[1..] == RemoveAt(l, 0);
    RemoveIndex(l, 0, p, q);
  }

  lemma HeadBefore(l: seq<int>, p: int)
    requires NoDup(l) && l != [] && p in l[1..]
    ensures Before(l, l[0], p) && p in l
  {
    var i :| 0 <= i < |l[1..]| && l[1..][i] == p;
    BeforeIndex(l, 0, i + 1);
  }

  /** Joining followed by a switch to the first in line, who was not running before. */
  lemma PopFair(v: View, w: View)
    requires Joins(v, w) && NoDup(v.ready) && NoDup(w.ready) && w.ready != []
    ensures Fair(v, Pop(w))
  {
    var t := Pop(w);
    forall p, q | Before(v.ready, p, q) && p in t.ready && q in t.ready
      ensures Before(t.ready, p, q)
    {
      assert Before(w.ready, p, q);
      TailBefore(w.ready, p, q);
    }
    forall p, x | p in v.ready && p in t.ready && x in t.ready && x !in v.ready && Key(v.prio, p) >= Key(v.prio, x)
      ensures Before(t.ready, p, x)
    {
      HeadBefore(w.ready, x);
      assert Before(w.ready, p, x);
      TailBefore(w.ready, p, x);
    }
    forall p | p in v.ready && p in t.ready && t.curr != v.curr
      ensures Before(v.ready, t.curr, p) || Key(v.prio, t.curr) > Key(v.prio, p)
    {
      HeadBefore(w.ready, p);
      HeadWasAhead(v, w, p);
    }
  }

  /** Whoever is first was ahead of `p` before, or is a newcomer of higher priority. */
  lemma HeadWasAhead(v: View, w: View, p: int)
    requires Joins(v, w) && NoDup(v.ready) && NoDup(w.ready) && w.ready != [] && p in v.ready
    requires Before(w.ready, w.ready[0], p)
    ensures Before(v.ready, w.ready[0], p) || Key(v.prio, w.ready[0]) > Key(v.prio, p)
  {
    var x := w.ready[0];
    assert !Before(w.ready, p, x);
    if x in v.ready { assert Before(v.ready, x, p) || Before(v.ready, p, x); }
  }

  lemma JoinsFair(v: View, w: View)
    requires Joins(v, w)
    ensures Fair(v, w)
  {
  }

  /** The line and the CPU are the same; priorities of others may have changed. */
  lemma SameFair(v: View, w: View)
    requires w.ready == v.ready && w.curr == v.curr
    ensures Fair(v, w)
  {
  }

  /** Somebody was taken out of the line. */
  lemma RemoveFair(v: View, w: View, p: int)
    requires NoDup(v.ready) && w.ready == Remove(v.ready, p) && w.curr == v.curr
    ensures Fair(v, w)
  {
    RemoveFacts(v.ready, p);
    forall a, b | Before(v.ready, a, b) && a in w.ready && b in w.ready
      ensures Before(w.ready, a, b)
    {
      if p in v.ready { RemoveIndex(v.ready, IndexOf(v.ready, p), a, b); }
    }
  }
}
