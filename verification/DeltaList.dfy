/**
 The sleep queue is a delta list: each key counts the ticks after the previous entry.
 `Pre` sums a prefix of the keys, so `Remaining` is the time an entry still has to wait.
 */
module DeltaList {
  import opened KernelState
  import opened KernelInvariant

  function Pre(l: seq<int>, keys: seq<int>, n: nat): int
    requires n <= |l|
  {
    if n == 0 then 0 else Pre(l, keys, n - 1) + Key(keys, l[n - 1])
  }

  /** Ticks until `p` is due. */
  function Remaining(l: seq<int>, keys: seq<int>, p: int): int
    requires p in l
  {
    Pre(l, keys, IndexOf(l, p) + 1)
  }

  ghost predicate NonNeg(l: seq<int>, keys: seq<int>) { forall i :: 0 <= i < |l| ==> Key(keys, l[i]) >= 0 }

  lemma {:induction false} IndexOfAt(l: seq<int>, i: nat)
    requires NoDup(l) && i < |l|
    ensures IndexOf(l, l[i]) == i
  {
    if i > 0 {
      assert l[0] != l[i] && l[1..][i - 1] == l[i];
      IndexOfAt(l[1..], i - 1);
    }
  }

  /** The sum reads only the keys of the prefix. */
  lemma {:induction false} PreSame(l: seq<int>, keys: seq<int>, l': seq<int>, keys': seq<int>, n: nat)
    requires n <= |l| && n <= |l'|
    requires forall j :: 0 <= j < n ==> Key(keys', l'[j]) == Key(keys, l[j])
    ensures Pre(l', keys', n) == Pre(l, keys, n)
  {
    if n > 0 { PreSame(l, keys, l', keys', n - 1); }
  }

  lemma {:induction false} PreTail(l: seq<int>, keys: seq<int>, n: nat)
    requires n < |l|
    ensures Pre(l, keys, n + 1) == Key(keys, l[0]) + Pre(l[1..], keys, n)
  {
    if n > 0 {
      PreTail(l, keys, n - 1);
      assert l[1..][n - 1] == l[n];
    }
  }

  lemma {:induction false} PreMonotone(l: seq<int>, keys: seq<int>, m: nat, n: nat)
    requires NonNeg(l, keys) && m <= n <= |l|
    ensures Pre(l, keys, m) <= Pre(l, keys, n)
  {
    if m < n { PreMonotone(l, keys, m, n - 1); }
  }

  /** The search of `insertd` stops where the delay falls between two prefix sums. */
  lemma {:induction false} DeltaPosMeaning(l: seq<int>, keys: seq<int>, key: int)
    requires NonNeg(l, keys) && 0 <= key <= MAXKEY
    ensures var (i, r) := DeltaPos(l, keys, key);
            0 <= r && Pre(l, keys, i) + r == key && (i < |l| ==> r < Key(keys, l[i]))
    decreases |l|
  {
    if !(l == [] || Key(keys, l[0]) > key) {
      assert forall i :: 0 <= i < |l[1..]| ==> l[1..][i] == l[i + 1];
      DeltaPosMeaning(l[1..], keys, key - Key(keys, l[0]));
      var (i, r) := DeltaPos(l[1..], keys, key - Key(keys, l[0]));
      PreTail(l, keys, i);
    }
  }

  // ---- insertion -------------------------------------------------------------------

  function InsertKeys(l: seq<int>, keys: seq<int>, p: int, i: nat, r: int): seq<int>
    requires 0 <= p < |keys| && i <= |l| && (i < |l| ==> 0 <= l[i] < |keys|)
  {
    var k1 := keys[p := r];
    if i < |l| then k1[l[i] := k1[l[i]] - r] else k1
  }

  lemma {:induction false} InsertPre(l: seq<int>, keys: seq<int>, p: int, i: nat, r: int, n: nat)
    requires NoDup(l) && p !in l && 0 <= p < |keys| && i <= |l| && (i < |l| ==> 0 <= l[i] < |keys|) && n <= |l|
    ensures var l' := InsertAt(l, i, p); var keys' := InsertKeys(l, keys, p, i, r);
            && (n <= i ==> Pre(l', keys', n) == Pre(l, keys, n))
            && Pre(l', keys', i + 1) == Pre(l, keys, i) + r
            && (n > i ==> Pre(l', keys', n + 1) == Pre(l, keys, n))
  {
    var l' := InsertAt(l, i, p);
    var keys' := InsertKeys(l, keys, p, i, r);
    forall j | 0 <= j < i
      ensures Key(keys', l'[j]) == Key(keys, l[j])
    {
      InsertAtElem(l, i, p, j);
      assert l[j] in l;
    }
    PreSame(l, keys, l', keys', i);
    PreSame(l, keys, l', keys', if n <= i then n else i);
    InsertAtElem(l, i, p, i);
    if n > i {
      InsertPre(l, keys, p, i, r, n - 1);
      InsertAtElem(l, i, p, n);
      assert l[n - 1] in l;
      if n - 1 > i { assert l[n - 1] != l[i]; }
    }
  }

  /** `insertd` adds `p` at `Pre(i) + r` and changes nobody else's remaining time. */
  lemma InsertRemaining(l: seq<int>, keys: seq<int>, p: int, i: nat, r: int, q: int)
    requires NoDup(l) && p !in l && 0 <= p < |keys| && i <= |l| && (i < |l| ==> 0 <= l[i] < |keys|)
    ensures var l' := InsertAt(l, i, p); var keys' := InsertKeys(l, keys, p, i, r);
            && p in l' && Remaining(l', keys', p) == Pre(l, keys, i) + r
            && (q in l ==> q in l' && Remaining(l', keys', q) == Remaining(l, keys, q))
  {
    hide Pre, InsertKeys, IndexOf, InsertAt, NoDup;
    var l' := InsertAt(l, i, p);
    InsertAtFacts(l, i, p);
    InsertAtElem(l, i, p, i);
    IndexOfAt(l', i);
    InsertPre(l, keys, p, i, r, i);
    if q in l {
      var j := IndexOf(l, q);
      var j' := if j < i then j else j + 1;
      InsertAtElem(l, i, p, j');
      IndexOfAt(l', j');
      InsertPre(l, keys, p, i, r, j + 1);
    }
  }

  // ---- removal ---------------------------------------------------------------------

  function RemoveKeys(l: seq<int>, keys: seq<int>, i: nat): seq<int>
    requires i < |l|
  {
    if i + 1 < |l| && 0 <= l[i + 1] < |keys| then keys[l[i + 1] := keys[l[i + 1]] + Key(keys, l[i])] else keys
  }

  lemma {:induction false} RemovePre(l: seq<int>, keys: seq<int>, i: nat, n: nat)
    requires NoDup(l) && i < |l| && (forall j :: 0 <= j < |l| ==> 0 <= l[j] < |keys|) && n < |l|
    ensures var l' := RemoveAt(l, i); var keys' := RemoveKeys(l, keys, i);
            Pre(l', keys', n) == if n <= i then Pre(l, keys, n) else Pre(l, keys, n + 1)
    decreases n
  {
    var l' := RemoveAt(l, i);
    var keys' := RemoveKeys(l, keys, i);
    if n <= i {
      forall j | 0 <= j < n
        ensures Key(keys', l'[j]) == Key(keys, l[j])
      {
        RemoveAtElem(l, i, j);
        if i + 1 < |l| { assert l[j] != l[i + 1]; }
      }
      PreSame(l, keys, l', keys', n);
    } else {
      RemovePre(l, keys, i, n - 1);
      RemoveAtElem(l, i, n - 1);
      if n > i + 1 { assert l[i + 1] != l[n]; }
    }
  }

  /** `unsleep` removes one entry and changes nobody else's remaining time. */
  lemma RemoveRemaining(l: seq<int>, keys: seq<int>, p: int, q: int)
    requires NoDup(l) && (forall j :: 0 <= j < |l| ==> 0 <= l[j] < |keys|) && p in l && q in l && q != p
    ensures var i := IndexOf(l, p);
            q in RemoveAt(l, i) && Remaining(RemoveAt(l, i), RemoveKeys(l, keys, i), q) == Remaining(l, keys, q)
  {
    hide Pre, IndexOf, RemoveKeys;
    var i, j := IndexOf(l, p), IndexOf(l, q);
    var l' := RemoveAt(l, i);
    var j' := if j < i then j else j - 1;
    RemoveAtElem(l, i, j');
    RemoveAtNoDup(l, i);
    IndexOfAt(l', j');
    RemovePre(l, keys, i, j' + 1);
  }
}
