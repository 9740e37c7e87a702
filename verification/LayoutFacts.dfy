/** What tiling implies: full coverage, and one coalesced layout per set of chunks in use. */
module LayoutFacts {
  import opened Bits
  import opened Layout

  /** An address among the chunks of one segment is in no other segment. */
  lemma SameSegment(segs: seq<Segment>, j: nat, k: nat, a: int)
    requires SegmentsApart(segs) && j < |segs| && k < |segs|
    requires segs[j].base <= a < segs[j].base + segs[j].size && segs[k].base <= a < segs[k].base + segs[k].size
    ensures j == k
  {
    assert SegApart(segs, j, k);
  }

  lemma Bounds(segs: seq<Segment>, k: nat)
    requires SegmentsApart(segs) && k < |segs|
    ensures 0 < segs[k].base < LimitOf(segs, k) < segs[k].base + segs[k].size < LIMIT
  {
    assert segs[k] in segs;
  }

  /** The chunk after p in its segment. */
  lemma NextInSegment(L: Layout, segs: seq<Segment>, k: nat, p: int)
    requires Tiled(L, segs) && p in L && Within(segs, k, p, End(L, p)) && End(L, p) < LimitOf(segs, k)
    ensures End(L, p) in L && Within(segs, k, End(L, p), End(L, End(L, p)))
  {
    var n := End(L, p);
    Bounds(segs, k);
    assert Followed(L, segs, p);
    if n !in L {
      var j :| 0 <= j < |segs| && n == LimitOf(segs, j);
      Bounds(segs, j);
      SameSegment(segs, j, k, n);
    }
    assert Contained(segs, n, End(L, n));
    var j: nat :| Within(segs, j, n, End(L, n));
    Bounds(segs, j);
    SameSegment(segs, j, k, n);
  }

  /** Every address of a segment below its limit belongs to a chunk. */
  lemma CoverFrom(L: Layout, segs: seq<Segment>, k: nat, p: int, a: int) returns (q: int)
    requires Tiled(L, segs) && p in L && Within(segs, k, p, End(L, p)) && p <= a < LimitOf(segs, k)
    ensures q in L && q <= a < End(L, q) && Within(segs, k, q, End(L, q))
    decreases a - p
  {
    if a < End(L, p) { return p; }
    NextInSegment(L, segs, k, p);
    q := CoverFrom(L, segs, k, End(L, p), a);
  }

  lemma BaseWithin(L: Layout, segs: seq<Segment>, k: nat)
    requires Tiled(L, segs) && k < |segs|
    ensures segs[k].base in L && Within(segs, k, segs[k].base, End(L, segs[k].base))
  {
    var p := segs[k].base;
    assert Contained(segs, p, End(L, p));
    var j: nat :| Within(segs, j, p, End(L, p));
    Bounds(segs, j);
    SameSegment(segs, j, k, p);
  }

  /** A tiled segment is covered without gap or overlap. */
  lemma Covered(L: Layout, segs: seq<Segment>, k: nat, a: int) returns (q: int)
    requires Tiled(L, segs) && k < |segs| && segs[k].base <= a < LimitOf(segs, k)
    ensures q in L && q <= a < End(L, q)
    ensures forall r :: r in L && r <= a < End(L, r) ==> r == q
  {
    BaseWithin(L, segs, k);
    q := CoverFrom(L, segs, k, segs[k].base, a);
    forall r | r in L && r <= a < End(L, r) ensures r == q { assert ChunksApart(L, q, r); }
  }

  /** A chunk that does not start its segment has one right before it. */
  lemma Predecessor(L: Layout, segs: seq<Segment>, p: int) returns (q: int)
    requires Tiled(L, segs) && p in L && !IsBase(segs, p)
    ensures q in L && End(L, q) == p && L[p].pinuse == L[q].inuse
  {
    assert Contained(segs, p, End(L, p));
    var k: nat :| Within(segs, k, p, End(L, p));
    Bounds(segs, k);
    q := Covered(L, segs, k, p - 1);
    assert ChunksApart(L, p, q) && Followed(L, segs, q);
  }

  /** The chunks in use, with their sizes. */
  ghost function Used(L: Layout): map<int, nat> { map p | p in L && L[p].inuse :: L[p].size }

  /** A free chunk of one layout starts a chunk in any other with the same used chunks. */
  lemma FreeStart(L: Layout, M: Layout, segs: seq<Segment>, p: int)
    requires Tiled(L, segs) && Tiled(M, segs) && Coalesced(L) && Used(L) == Used(M)
    requires p in L && !L[p].inuse
    ensures p in M && !M[p].inuse
  {
    if !IsBase(segs, p) {
      var q := Predecessor(L, segs, p);
      assert Isolated(L, p);
      assert q in Used(L) && Used(L)[q] == Used(M)[q];
      assert Contained(segs, p, End(L, p));
      var k: nat :| Within(segs, k, p, End(L, p));
      Bounds(segs, k);
      var r := Covered(M, segs, k, p);
      assert ChunksApart(M, q, r);
      assert Followed(M, segs, q);
      NotLimit(segs, k, p);
    }
    assert p in M && M[p].inuse ==> p in Used(M);
  }

  lemma NotLimit(segs: seq<Segment>, k: nat, p: int)
    requires SegmentsApart(segs) && k < |segs| && segs[k].base <= p < LimitOf(segs, k)
    ensures !IsLimit(segs, p)
  {
    Bounds(segs, k);
    if IsLimit(segs, p) {
      var j :| 0 <= j < |segs| && p == LimitOf(segs, j);
      Bounds(segs, j);
      SameSegment(segs, j, k, p);
    }
  }

  /** Between p and the end of the free chunk at p, the other layout has no chunk boundary. */
  lemma FreeExtent(L: Layout, M: Layout, segs: seq<Segment>, p: int)
    requires Tiled(L, segs) && Tiled(M, segs) && Coalesced(L) && Coalesced(M) && Used(L) == Used(M)
    requires p in L && p in M && !L[p].inuse && !M[p].inuse
    ensures End(L, p) <= End(M, p)
  {
    var n := End(M, p);
    assert n in L ==> ChunksApart(L, p, n);
    assert n in M && M[n].inuse ==> n in Used(M);
    assert Followed(M, segs, p) && Isolated(M, p);
    if n < End(L, p) {
      assert Contained(segs, p, End(L, p));
      var k: nat :| Within(segs, k, p, End(L, p));
      Bounds(segs, k);
      NotLimit(segs, k, n);
    }
  }

  /** The coalesced layout is determined by the segments and the chunks in use. */
  lemma CoalescedUnique(L: Layout, M: Layout, segs: seq<Segment>)
    requires Tiled(L, segs) && Tiled(M, segs) && Coalesced(L) && Coalesced(M) && Used(L) == Used(M)
    ensures L == M
  {
    SameChunks(L, M, segs);
    SameChunks(M, L, segs);
    assert forall p :: (p in L <==> p in M) && (p in L ==> L[p] == M[p]);
  }

  lemma SameChunks(L: Layout, M: Layout, segs: seq<Segment>)
    requires Tiled(L, segs) && Tiled(M, segs) && Coalesced(L) && Coalesced(M) && Used(L) == Used(M)
    ensures forall p :: p in L ==> p in M && M[p] == L[p]
  {
    forall p | p in L ensures p in M && M[p].size == L[p].size && M[p].inuse == L[p].inuse {
      if L[p].inuse {
        assert p in Used(L) && Used(L)[p] == Used(M)[p];
      } else {
        FreeStart(L, M, segs, p);
        FreeExtent(L, M, segs, p);
        FreeExtent(M, L, segs, p);
      }
    }
    forall p | p in L ensures M[p].pinuse == L[p].pinuse {
      if !IsBase(segs, p) {
        var q := Predecessor(L, segs, p);
        assert Followed(M, segs, q);
      }
    }
  }
}
