/** Circular doubly-linked lists threaded through the fd and bk words: the small bins
    (with the bin header as element 0) and the same-size chains of tree chunks. */
module Rings {
  import opened Words

  function Next(s: seq<int>, i: nat): nat requires i < |s| { if i + 1 < |s| then i + 1 else 0 }
  function Prev(s: seq<int>, i: nat): nat requires i < |s| { if i == 0 then |s| - 1 else i - 1 }

  ghost predicate Distinct(s: seq<int>) { forall i, j :: 0 <= i < j < |s| ==> s[i] != s[j] }

  /** s is one cycle: fd leads from each member to the next, bk to the previous. */
  ghost predicate Ring(w: Memory, s: seq<int>) {
    && |s| > 0 && Distinct(s)
    && forall i {:trigger Fd(w, s[i])} {:trigger Bk(w, s[i])} :: 0 <= i < |s| ==>
         Fd(w, s[i]) == s[Next(s, i)] && Bk(w, s[i]) == s[Prev(s, i)]
  }

  /** Each is the neighbour of its neighbours. */
  lemma RingAgrees(w: Memory, s: seq<int>, k: nat)
    requires Ring(w, s) && k < |s|
    ensures Fd(w, s[k]) == s[Next(s, k)] && Bk(w, s[k]) == s[Prev(s, k)]
    ensures Bk(w, Fd(w, s[k])) == s[k] && Fd(w, Bk(w, s[k])) == s[k]
  {
    var n, p := Next(s, k), Prev(s, k);
    assert Prev(s, n) == k && Next(s, p) == k;
    assert Bk(w, s[n]) == s[Prev(s, n)] && Fd(w, s[p]) == s[Next(s, p)];
  }

  lemma RingFrame(w: Memory, w': Memory, s: seq<int>)
    requires Ring(w, s)
    requires forall i {:trigger Fd(w', s[i])} {:trigger Bk(w', s[i])} :: 0 <= i < |s| ==>
               Fd(w', s[i]) == Fd(w, s[i]) && Bk(w', s[i]) == Bk(w, s[i])
    ensures Ring(w', s)
  {}

  /** Linking x right behind element 0. */
  function Inserted(s: seq<int>, x: int): (t: seq<int>)
    requires |s| > 0
  { [s[0], x] + s[1..] }

  lemma RingInsert(w: Memory, w': Memory, s: seq<int>, x: int)
    requires Ring(w, s) && x !in s
    requires Fd(w', x) == Fd(w, s[0]) && Bk(w', x) == s[0]
    requires forall i {:trigger Fd(w', s[i])} :: 0 <= i < |s| ==>
               Fd(w', s[i]) == if i == 0 then x else Fd(w, s[i])
    requires forall i {:trigger Bk(w', s[i])} :: 0 <= i < |s| ==>
               Bk(w', s[i]) == if s[i] == Fd(w, s[0]) then x else Bk(w, s[i])
    ensures Ring(w', Inserted(s, x))
  {
    var t := Inserted(s, x);
    forall i | 0 <= i < |t|
      ensures Fd(w', t[i]) == t[Next(t, i)] && Bk(w', t[i]) == t[Prev(t, i)]
    {
      if i >= 2 { assert t[i] == s[i - 1]; }
    }
  }

  function Without(s: seq<int>, k: nat): seq<int> requires k < |s| { s[..k] + s[k + 1..] }

  /** Where element i of the shorter ring stands in the whole one. */
  function Skip(k: nat, i: nat): nat { if i < k then i else i + 1 }

  /** Its neighbours are what they were, except that the places next to the gap lead over it. */
  lemma NextWithout(s: seq<int>, k: nat, i: nat)
    requires k < |s| && i < |s| - 1
    ensures var t, j := Without(s, k), Skip(k, i);
      && |t| == |s| - 1 && t[i] == s[j] && j != k
      && t[Next(t, i)] == s[if Next(s, j) == k then Next(s, k) else Next(s, j)]
  {
    var t := Without(s, k);
    assert forall m :: 0 <= m < |t| ==> t[m] == s[Skip(k, m)];
  }

  lemma PrevWithout(s: seq<int>, k: nat, i: nat)
    requires k < |s| && i < |s| - 1
    ensures var t, j := Without(s, k), Skip(k, i);
      && |t| == |s| - 1 && t[i] == s[j] && j != k
      && t[Prev(t, i)] == s[if Prev(s, j) == k then Prev(s, k) else Prev(s, j)]
  {
    var t := Without(s, k);
    assert forall m :: 0 <= m < |t| ==> t[m] == s[Skip(k, m)];
  }

  /** What comes next to s[j] is s[k] just if s[j] is the one before it. */
  lemma NeighbourIs(s: seq<int>, j: nat, k: nat)
    requires Distinct(s) && j < |s| && k < |s|
    ensures Next(s, j) == k <==> s[j] == s[Prev(s, k)]
    ensures Prev(s, j) == k <==> s[j] == s[Next(s, k)]
  {}

  lemma DistinctWithout(s: seq<int>, k: nat)
    requires Distinct(s) && k < |s|
    ensures Distinct(Without(s, k))
  {
    var t := Without(s, k);
    assert forall m :: 0 <= m < |t| ==> t[m] == s[Skip(k, m)];
  }

  /** Splicing the neighbours of s[k] together takes exactly s[k] out of the ring. */
  lemma RingRemove(w: Memory, w': Memory, s: seq<int>, k: nat)
    requires Ring(w, s) && k < |s| && |s| >= 2
    requires var f, r := Fd(w, s[k]), Bk(w, s[k]);
      && (forall i {:trigger Fd(w', s[i])} :: 0 <= i < |s| ==>
            Fd(w', s[i]) == if s[i] == r then f else Fd(w, s[i]))
      && (forall i {:trigger Bk(w', s[i])} :: 0 <= i < |s| ==>
            Bk(w', s[i]) == if s[i] == f then r else Bk(w, s[i]))
    ensures Ring(w', Without(s, k))
  {
    var t := Without(s, k);
    DistinctWithout(s, k);
    assert Fd(w, s[k]) == s[Next(s, k)] && Bk(w, s[k]) == s[Prev(s, k)];
    forall i | 0 <= i < |t|
      ensures Fd(w', t[i]) == t[Next(t, i)] && Bk(w', t[i]) == t[Prev(t, i)]
    {
      var j := Skip(k, i);
      NextWithout(s, k, i);
      PrevWithout(s, k, i);
      NeighbourIs(s, j, k);
      hide Next, Prev, Distinct, Without, Fd, Bk;
      assert Fd(w', s[j]) == if s[j] == s[Prev(s, k)] then s[Next(s, k)] else s[Next(s, j)];
      assert Bk(w', s[j]) == if s[j] == s[Next(s, k)] then s[Prev(s, k)] else s[Prev(s, j)];
    }
  }

  function Rotated(s: seq<int>): seq<int> requires |s| > 0 { [s[|s| - 1]] + s[..|s| - 1] }

  lemma RingRotate(w: Memory, s: seq<int>)
    requires Ring(w, s)
    ensures Ring(w, Rotated(s))
  {
    var t := Rotated(s);
    forall i | 0 <= i < |t|
      ensures Fd(w, t[i]) == t[Next(t, i)] && Bk(w, t[i]) == t[Prev(t, i)]
    {
      if i > 0 { assert t[i] == s[i - 1]; }
    }
  }
}
