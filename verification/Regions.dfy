/** How a layout follows its segments when they grow, shrink, come and go. */
module Regions {
  import opened Bits
  import opened Layout
  import opened LayoutFacts
  import opened Heap

  // ------------------------------------------------------------- the end of the top segment moves

  function Resized(segs: seq<Segment>, size: nat): seq<Segment> requires |segs| > 0
  { segs[0 := segs[0].(size := size)] }

  ghost function WithTop(L: Layout, top: int, size: nat): Layout requires top in L { L[top := L[top].(size := size)] }

  lemma ResizedDisjoint(L: Layout, segs: seq<Segment>, segs': seq<Segment>, top: int, size: nat)
    requires Tiled(L, segs) && SegmentsApart(segs') && |segs| == |segs'| > 0 && segs' == Resized(segs, segs'[0].size)
    requires top in L && End(L, top) == LimitOf(segs, 0) && size > 0 && top + size == LimitOf(segs', 0)
    ensures Disjoint(WithTop(L, top, size))
  {
    var L' := WithTop(L, top, size);
    TopWithin(L, segs, top);
    forall p, q | p in L' && q in L' ensures ChunksApart(L', p, q) {
      assert ChunksApart(L, p, q);
      if q == top && p != top { ResizedApart(L, segs, segs', top, size, p); }
      if p == top && q != top { ResizedApart(L, segs, segs', top, size, q); }
    }
  }

  lemma TopWithin(L: Layout, segs: seq<Segment>, top: int)
    requires Tiled(L, segs) && |segs| > 0 && top in L && End(L, top) == LimitOf(segs, 0)
    ensures Within(segs, 0, top, End(L, top))
  {
    assert Contained(segs, top, End(L, top));
    var k: nat :| Within(segs, k, top, End(L, top));
    Bounds(segs, k);
    Bounds(segs, 0);
    SameSegment(segs, 0, k, End(L, top) - 1);
  }

  lemma ResizedApart(L: Layout, segs: seq<Segment>, segs': seq<Segment>, top: int, size: nat, p: int)
    requires Tiled(L, segs) && SegmentsApart(segs') && |segs| == |segs'| > 0 && segs' == Resized(segs, segs'[0].size)
    requires top in L && End(L, top) == LimitOf(segs, 0) && size > 0 && top + size == LimitOf(segs', 0)
    requires p in L && p != top
    ensures End(L, p) <= top || top + size <= p
  {
    assert ChunksApart(L, p, top) && Contained(segs, p, End(L, p));
    var k: nat :| Within(segs, k, p, End(L, p));
    TopWithin(L, segs, top);
    Bounds(segs, k);
    Bounds(segs, 0);
    if k != 0 {
      Bounds(segs', k);
      Bounds(segs', 0);
      assert SegApart(segs', 0, k);
    }
  }

  lemma ResizedContained(L: Layout, segs: seq<Segment>, segs': seq<Segment>, top: int, size: nat)
    requires Tiled(L, segs) && |segs| == |segs'| > 0 && segs' == Resized(segs, segs'[0].size)
    requires top in L && End(L, top) == LimitOf(segs, 0) && top + size == LimitOf(segs', 0)
    ensures AllContained(WithTop(L, top, size), segs')
  {
    var L' := WithTop(L, top, size);
    TopWithin(L, segs, top);
    forall p | p in L' ensures Contained(segs', p, End(L', p)) {
      if p == top {
        assert Within(segs', 0, p, End(L', p));
      } else {
        assert Contained(segs, p, End(L, p)) && ChunksApart(L, p, top);
        var k: nat :| Within(segs, k, p, End(L, p));
        Bounds(segs, k);
        assert Within(segs', k, p, End(L', p));
      }
    }
  }

  lemma ResizedFollowed(L: Layout, segs: seq<Segment>, segs': seq<Segment>, top: int, size: nat)
    requires Tiled(L, segs) && SegmentsApart(segs') && |segs| == |segs'| > 0 && segs' == Resized(segs, segs'[0].size)
    requires top in L && End(L, top) == LimitOf(segs, 0) && size > 0 && top + size == LimitOf(segs', 0)
    requires Disjoint(WithTop(L, top, size))
    ensures AllFollowed(WithTop(L, top, size), segs')
  {
    var L' := WithTop(L, top, size);
    forall p | p in L' ensures Followed(L', segs', p) {
      assert Followed(L, segs, p);
      if p == top {
        assert IsLimit(segs', top + size);
        FreshLimit(L, segs, segs', top, top + size);
      } else {
        assert ChunksApart(L, p, top);
        SameBases(segs, segs', End(L, p));
        if End(L, p) !in L { LimitStays(segs, segs', End(L, p), LimitOf(segs, 0)); }
      }
    }
  }

  lemma SameBases(segs: seq<Segment>, segs': seq<Segment>, a: int)
    requires |segs| == |segs'| > 0 && segs' == Resized(segs, segs'[0].size)
    ensures IsBase(segs, a) <==> IsBase(segs', a)
  {
    if IsBase(segs, a) { var k :| 0 <= k < |segs| && a == segs[k].base; assert a == segs'[k].base; }
    if IsBase(segs', a) { var k :| 0 <= k < |segs| && a == segs'[k].base; assert a == segs[k].base; }
  }

  lemma LimitStays(segs: seq<Segment>, segs': seq<Segment>, a: int, l: int)
    requires |segs| == |segs'| > 0 && segs' == Resized(segs, segs'[0].size) && IsLimit(segs, a) && a != LimitOf(segs, 0)
    ensures IsLimit(segs', a)
  {
    var k :| 0 <= k < |segs| && a == LimitOf(segs, k);
    assert a == LimitOf(segs', k);
  }

  lemma FreshLimit(L: Layout, segs: seq<Segment>, segs': seq<Segment>, top: int, a: int)
    requires Tiled(L, segs) && SegmentsApart(segs') && |segs| == |segs'| > 0 && segs' == Resized(segs, segs'[0].size)
    requires a == LimitOf(segs', 0) && top in L && End(L, top) == LimitOf(segs, 0) && top < a
    ensures a !in L
  {
    TopWithin(L, segs, top);
    assert IsLimit(segs', a);
    if a in L {
      assert Contained(segs, a, End(L, a));
      var k: nat :| Within(segs, k, a, End(L, a));
      assert ChunksApart(L, top, a);
      NotLimit(segs', k, a);
    }
  }

  lemma ResizedTiled(L: Layout, segs: seq<Segment>, segs': seq<Segment>, top: int, size: nat)
    requires Tiled(L, segs) && SegmentsApart(segs') && |segs| == |segs'| > 0 && segs' == Resized(segs, segs'[0].size)
    requires top in L && End(L, top) == LimitOf(segs, 0) && size > 0 && size % 16 == 0
    requires top + size == LimitOf(segs', 0)
    ensures Tiled(WithTop(L, top, size), segs')
  {
    ResizedDisjoint(L, segs, segs', top, size);
    ResizedContained(L, segs, segs', top, size);
    ResizedFollowed(L, segs, segs', top, size);
  }

  /** The top segment ends elsewhere; all else is as it was. */
  lemma ResizedLayout(L: Layout, segs: seq<Segment>, segs': seq<Segment>, s: Spare, size: nat)
    requires LayoutOk(L, segs, s) && s.top != 0 && SegmentsApart(segs') && |segs'| == |segs|
    requires segs' == Resized(segs, segs'[0].size)
    requires size > 0 && size % 16 == 0 && s.top + size == LimitOf(segs', 0)
    ensures LayoutOk(WithTop(L, s.top, size), segs', s.(topsize := size)) && Used(WithTop(L, s.top, size)) == Used(L)
  {
    var L' := WithTop(L, s.top, size);
    ResizedTiled(L, segs, segs', s.top, size);
    FreshLimit(L, segs, segs', s.top, s.top + size);
    forall p | p in L' ensures Isolated(L', p) { assert Isolated(L, p); }
    forall k | 1 <= k < |segs'|
      ensures segs'[k].rec in L' && L'[segs'[k].rec].inuse && L'[segs'[k].rec].size == RECORD_SIZE
    {
      assert segs'[k].rec == segs[k].rec;
    }
  }

  // ------------------------------------------------------------- a segment grows downward

  /** Segment k starts t bytes earlier. */
  function Prepended(segs: seq<Segment>, k: nat, t: nat): seq<Segment> requires k < |segs|
  { segs[k := segs[k].(base := segs[k].base - t, size := segs[k].size + t)] }

  /** The new bytes are one chunk in use. */
  ghost function WithFirst(L: Layout, b: int, t: nat): Layout { L[b := Chunk(t, true, true)] }

  lemma PrependedTiled(L: Layout, segs: seq<Segment>, k: nat, t: nat)
    requires Tiled(L, segs) && k < |segs| && t > 0 && t % 16 == 0 && SegmentsApart(Prepended(segs, k, t))
    ensures Tiled(WithFirst(L, segs[k].base - t, t), Prepended(segs, k, t)) && segs[k].base - t !in L
  {
    hide Disjoint, AllContained, Based, AllFollowed, SegmentsApart;
    var segs', b := Prepended(segs, k, t), segs[k].base - t;
    var L' := WithFirst(L, b, t);
    Bounds(segs', k);
    BaseWithin(L, segs, k);
    forall p | p in L ensures p >= segs[k].base || End(L, p) <= b { PrependedApart(L, segs, k, t, p); }
    FirstDisjoint(L, b, t);
    PrependedContained(L, L', segs, segs', k, t);
    PrependedBased(L, L', segs, segs', k, t);
    AllFollowedFrom(L, L', segs, segs', k, t);
  }

  lemma AllFollowedFrom(L: Layout, L': Layout, segs: seq<Segment>, segs': seq<Segment>, k: nat, t: nat)
    requires Tiled(L, segs) && k < |segs| && t > 0 && segs' == Prepended(segs, k, t) && SegmentsApart(segs')
    requires L' == WithFirst(L, segs[k].base - t, t)
    requires forall q :: q in L ==> q >= segs[k].base || End(L, q) <= segs[k].base - t
    ensures AllFollowed(L', segs')
  {
    forall p | p in L' ensures Followed(L', segs', p) { PrependedFollowed(L, L', segs, segs', k, t, p); }
  }

  lemma FirstDisjoint(L: Layout, b: int, t: nat)
    requires Disjoint(L) && t > 0
    requires forall q :: q in L ==> q >= b + t || End(L, q) <= b
    ensures Disjoint(WithFirst(L, b, t))
  {
    var L' := WithFirst(L, b, t);
    forall p, q | p in L' && q in L' ensures ChunksApart(L', p, q) {
      if p != b && q != b { assert ChunksApart(L, p, q); }
    }
  }

  lemma PrependedContained(L: Layout, L': Layout, segs: seq<Segment>, segs': seq<Segment>, k: nat, t: nat)
    requires AllContained(L, segs) && SegmentsApart(segs) && k < |segs| && segs' == Prepended(segs, k, t)
    requires L' == WithFirst(L, segs[k].base - t, t)
    ensures AllContained(L', segs')
  {
    forall p | p in L' ensures Contained(segs', p, End(L', p)) {
      if p == segs[k].base - t {
        Bounds(segs, k);
        assert Within(segs', k, p, End(L', p));
      } else {
        assert Contained(segs, p, End(L, p));
        var j: nat :| Within(segs, j, p, End(L, p));
        assert Within(segs', j, p, End(L', p));
      }
    }
  }

  lemma PrependedBased(L: Layout, L': Layout, segs: seq<Segment>, segs': seq<Segment>, k: nat, t: nat)
    requires Based(L, segs) && k < |segs| && segs' == Prepended(segs, k, t) && L' == WithFirst(L, segs[k].base - t, t)
    ensures Based(L', segs')
  {
    forall j | 0 <= j < |segs'| ensures segs'[j].base in L' && L'[segs'[j].base].pinuse {
      if j != k { assert segs'[j].base == segs[j].base; }
    }
  }

  lemma PrependedApart(L: Layout, segs: seq<Segment>, k: nat, t: nat, p: int)
    requires Tiled(L, segs) && k < |segs| && t > 0 && SegmentsApart(Prepended(segs, k, t)) && p in L
    ensures p >= segs[k].base || End(L, p) <= segs[k].base - t
  {
    var segs' := Prepended(segs, k, t);
    assert Contained(segs, p, End(L, p));
    var j: nat :| Within(segs, j, p, End(L, p));
    Bounds(segs, j);
    Bounds(segs, k);
    Bounds(segs', k);
    assert SegApart(segs', j, k);
    if j != k { Bounds(segs', j); }
  }

  lemma PrependedFollowed(L: Layout, L': Layout, segs: seq<Segment>, segs': seq<Segment>, k: nat, t: nat, p: int)
    requires Tiled(L, segs) && k < |segs| && t > 0 && segs' == Prepended(segs, k, t) && SegmentsApart(segs')
    requires L' == WithFirst(L, segs[k].base - t, t) && p in L'
    requires forall q :: q in L ==> q >= segs[k].base || End(L, q) <= segs[k].base - t
    ensures Followed(L', segs', p)
  {
    var b := segs[k].base - t;
    if p == b {
      assert segs[k].base in L;
      NotBaseOfOther(segs, segs', k, t);
    } else {
      assert Followed(L, segs, p);
      var e := End(L, p);
      if e in L {
        forall j | 0 <= j < |segs'| ensures e != segs'[j].base { assert j != k ==> segs'[j].base == segs[j].base; }
      } else {
        var j :| 0 <= j < |segs| && e == LimitOf(segs, j);
        Bounds(segs, j);
        Bounds(segs', k);
        assert e == LimitOf(segs', j);
        NotBase(segs', j, b, k);
      }
    }
  }

  lemma NotBaseOfOther(segs: seq<Segment>, segs': seq<Segment>, k: nat, t: nat)
    requires SegmentsApart(segs) && k < |segs| && t > 0 && segs' == Prepended(segs, k, t) && SegmentsApart(segs')
    ensures !IsBase(segs', segs[k].base)
  {
    Bounds(segs, k);
    forall j | 0 <= j < |segs'| ensures segs[k].base != segs'[j].base {
      Bounds(segs', j);
      Bounds(segs', k);
      if j != k { assert SegApart(segs', j, k); }
    }
  }

  /** The limit of one segment is not the base of another. */
  lemma NotBase(segs: seq<Segment>, j: nat, b: int, k: nat)
    requires SegmentsApart(segs) && j < |segs| && k < |segs| && b == segs[k].base
    ensures LimitOf(segs, j) != b
  {
    Bounds(segs, j);
    Bounds(segs, k);
    if j != k { assert SegApart(segs, j, k); }
  }

  lemma PrependedLayout(L: Layout, segs: seq<Segment>, s: Spare, k: nat, t: nat)
    requires LayoutOk(L, segs, s) && k < |segs| && t >= MIN_CHUNK_SIZE && t % 16 == 0
    requires SegmentsApart(Prepended(segs, k, t))
    ensures LayoutOk(WithFirst(L, segs[k].base - t, t), Prepended(segs, k, t), s) && segs[k].base - t !in L
    ensures Used(WithFirst(L, segs[k].base - t, t)) == Used(L)[segs[k].base - t := t]
  {
    hide AllContained, AllFollowed, Disjoint;
    var segs', b := Prepended(segs, k, t), segs[k].base - t;
    var L' := WithFirst(L, b, t);
    PrependedTiled(L, segs, k, t);
    BaseWithin(L, segs, k);
    forall p | p in L' ensures Isolated(L', p) { if p != b { assert Isolated(L, p); } }
    forall j | 1 <= j < |segs'|
      ensures segs'[j].rec in L' && L'[segs'[j].rec].inuse && L'[segs'[j].rec].size == RECORD_SIZE
    {
      assert segs'[j].rec == segs[j].rec;
    }
    if s.top != 0 { assert LimitOf(segs', 0) == LimitOf(segs, 0); }
  }

  // ------------------------------------------------------------- a new segment

  /** Where add_segment puts the record of the segment that held top. */
  function RecordAt(s: Spare): int { if s.topsize >= MIN_CHUNK_SIZE then s.top + s.topsize else s.top }

  function Added(segs: seq<Segment>, s: Spare, b: int, size: nat): seq<Segment> requires |segs| > 0
  { [Segment(b, size, 0), segs[0].(rec := RecordAt(s))] + segs[1..] }

  /** What is left of the old top stays as a free chunk, the record follows, and the new segment is top. */
  ghost function WithSegment(L: Layout, s: Spare, b: int, n: nat): Layout
  { L[RecordAt(s) := Chunk(RECORD_SIZE, true, s.topsize < MIN_CHUNK_SIZE)][b := Chunk(n, false, true)] }

  lemma AddedSegments(L: Layout, segs: seq<Segment>, s: Spare, b: int, size: nat)
    requires Tiled(L, segs) && TopOk(L, segs, s) && s.top != 0
    requires 0 < b && TOP_FOOT_SIZE < size && b + size < LIMIT
    requires forall k :: 0 <= k < |segs| ==> b + size <= segs[k].base || segs[k].base + segs[k].size <= b
    ensures SegmentsApart(Added(segs, s, b, size))
  {
    var segs' := Added(segs, s, b, size);
    TopWithin(L, segs, s.top);
    forall k | 0 <= k < |segs'|
      ensures 0 < segs'[k].base < LimitOf(segs', k) <= segs'[k].base + segs'[k].size - 32
      ensures segs'[k].base + segs'[k].size < LIMIT
    {
      if k > 0 {
        Bounds(segs, k - 1);
        assert k > 1 ==> segs'[k] == segs[k - 1];
        assert segs[k - 1] in segs;
      }
    }
    forall j, k | 0 <= j < |segs'| && 0 <= k < |segs'| ensures SegApart(segs', j, k) {
      if j > 0 && k > 0 { assert SegApart(segs, j - 1, k - 1); }
      if j > 0 { assert segs'[j].base == segs[j - 1].base && segs'[j].size == segs[j - 1].size; }
      if k > 0 { assert segs'[k].base == segs[k - 1].base && segs'[k].size == segs[k - 1].size; }
    }
  }

  /** The new chunks do not touch the old ones. */
  ghost predicate Clear(L: Layout, segs: seq<Segment>, s: Spare, b: int, n: nat) {
    && (forall p :: p in L ==> End(L, p) <= b || b + n <= p)
    && (forall p :: p in L && p != s.top ==> End(L, p) <= s.top || RecordAt(s) + RECORD_SIZE <= p)
    && (RecordAt(s) + RECORD_SIZE <= b || b + n <= s.top)
  }

  lemma AddedClear(L: Layout, segs: seq<Segment>, s: Spare, b: int, size: nat)
    requires Tiled(L, segs) && TopOk(L, segs, s) && s.top != 0
    requires 0 < b && TOP_FOOT_SIZE < size && b + size < LIMIT
    requires forall k :: 0 <= k < |segs| ==> b + size <= segs[k].base || segs[k].base + segs[k].size <= b
    ensures Clear(L, segs, s, b, size - TOP_FOOT_SIZE)
  {
    TopWithin(L, segs, s.top);
    Bounds(segs, 0);
    forall p | p in L
      ensures End(L, p) <= b || b + size <= p
      ensures p != s.top ==> End(L, p) <= s.top || RecordAt(s) + RECORD_SIZE <= p
    {
      assert Contained(segs, p, End(L, p)) && ChunksApart(L, p, s.top);
      var k: nat :| Within(segs, k, p, End(L, p));
      Bounds(segs, k);
      if k != 0 { assert SegApart(segs, 0, k); }
    }
  }

  lemma AddedDisjoint(L: Layout, segs: seq<Segment>, s: Spare, b: int, n: nat)
    requires Disjoint(L) && Shaped(L) && TopOk(L, segs, s) && s.top != 0 && n > 0 && Clear(L, segs, s, b, n)
    ensures Disjoint(WithSegment(L, s, b, n)) && b !in L && (RecordAt(s) in L ==> RecordAt(s) == s.top)
  {
    var L' := WithSegment(L, s, b, n);
    forall p, q | p in L' && q in L' ensures ChunksApart(L', p, q) {
      if p in L && q in L { assert ChunksApart(L, p, q); }
    }
  }

  lemma AddedContained(L: Layout, segs: seq<Segment>, s: Spare, b: int, size: nat)
    requires Tiled(L, segs) && TopOk(L, segs, s) && s.top != 0 && size > TOP_FOOT_SIZE
    ensures AllContained(WithSegment(L, s, b, size - TOP_FOOT_SIZE), Added(segs, s, b, size))
  {
    var segs', L' := Added(segs, s, b, size), WithSegment(L, s, b, size - TOP_FOOT_SIZE);
    TopWithin(L, segs, s.top);
    forall p | p in L' ensures Contained(segs', p, End(L', p)) {
      if p == b {
        assert Within(segs', 0, p, End(L', p));
      } else if p == RecordAt(s) {
        assert Within(segs', 1, p, End(L', p));
      } else {
        assert Contained(segs, p, End(L, p));
        var k: nat :| Within(segs, k, p, End(L, p));
        assert k > 0 ==> segs'[k + 1] == segs[k];
        assert Within(segs', k + 1, p, End(L', p));
      }
    }
  }

  /** Bases and limits of the longer list. */
  lemma AddedBounds(segs: seq<Segment>, s: Spare, b: int, size: nat, a: int)
    requires |segs| > 0
    ensures IsBase(Added(segs, s, b, size), a) <==> a == b || IsBase(segs, a)
    ensures IsLimit(segs, a) && a != LimitOf(segs, 0) ==> IsLimit(Added(segs, s, b, size), a)
    ensures IsLimit(Added(segs, s, b, size), RecordAt(s) + RECORD_SIZE)
    ensures IsLimit(Added(segs, s, b, size), b + size - TOP_FOOT_SIZE)
  {
    var segs' := Added(segs, s, b, size);
    assert LimitOf(segs', 0) == b + size - TOP_FOOT_SIZE && LimitOf(segs', 1) == RecordAt(s) + RECORD_SIZE;
    if IsBase(segs', a) && a != b {
      var k :| 0 <= k < |segs'| && a == segs'[k].base;
      assert a == segs[k - 1].base;
    }
    if IsBase(segs, a) {
      var k :| 0 <= k < |segs| && a == segs[k].base;
      assert a == segs'[k + 1].base;
    }
    if IsLimit(segs, a) && a != LimitOf(segs, 0) {
      var k :| 0 <= k < |segs| && a == LimitOf(segs, k);
      assert a == LimitOf(segs', k + 1);
    }
    assert b == segs'[0].base;
  }

  /** No chunk starts at a limit. */
  lemma ChunkNotLimit(L: Layout, segs: seq<Segment>, a: int)
    requires SegmentsApart(segs) && Shaped(L) && AllContained(L, segs) && IsLimit(segs, a)
    ensures a !in L
  {
    if a in L {
      assert Contained(segs, a, End(L, a));
      var k: nat :| Within(segs, k, a, End(L, a));
      NotLimit(segs, k, a);
    }
  }

  /** No limit is a base. */
  lemma LimitNotBase(segs: seq<Segment>, a: int)
    requires SegmentsApart(segs) && IsLimit(segs, a)
    ensures !IsBase(segs, a)
  {
    var j :| 0 <= j < |segs| && a == LimitOf(segs, j);
    forall k | 0 <= k < |segs| ensures a != segs[k].base { NotBase(segs, j, segs[k].base, k); }
  }

  ghost predicate AddedParts(L: Layout, segs: seq<Segment>, s: Spare, b: int, size: nat)
    requires |segs| > 0 && size > TOP_FOOT_SIZE
  {
    var segs', L' := Added(segs, s, b, size), WithSegment(L, s, b, size - TOP_FOOT_SIZE);
    && Clear(L, segs, s, b, size - TOP_FOOT_SIZE)
    && SegmentsApart(segs') && AllContained(L', segs') && Shaped(L') && Disjoint(L')
  }

  lemma AddedFollowed(L: Layout, segs: seq<Segment>, s: Spare, b: int, size: nat, p: int)
    requires Tiled(L, segs) && Coalesced(L) && TopOk(L, segs, s) && s.top != 0 && size > TOP_FOOT_SIZE
    requires AddedParts(L, segs, s, b, size)
    requires p in WithSegment(L, s, b, size - TOP_FOOT_SIZE) && b !in L && (RecordAt(s) in L ==> RecordAt(s) == s.top)
    ensures Followed(WithSegment(L, s, b, size - TOP_FOOT_SIZE), Added(segs, s, b, size), p)
  {
    hide Coalesced, Based, AllContained, Shaped, Disjoint, SegmentsApart, AllFollowed;
    var segs', L', r := Added(segs, s, b, size), WithSegment(L, s, b, size - TOP_FOOT_SIZE), RecordAt(s);
    var e := End(L', p);
    AddedBounds(segs, s, b, size, e);
    if p == b || p == r {
      ChunkNotLimit(L', segs', e);
    } else {
      OldFollowed(L, segs, s, b, size, p);
    }
  }

  lemma OldFollowed(L: Layout, segs: seq<Segment>, s: Spare, b: int, size: nat, p: int)
    requires Tiled(L, segs) && Coalesced(L) && TopOk(L, segs, s) && s.top != 0 && size > TOP_FOOT_SIZE
    requires AddedParts(L, segs, s, b, size)
    requires p in L && p != RecordAt(s) && b !in L && (RecordAt(s) in L ==> RecordAt(s) == s.top)
    ensures Followed(WithSegment(L, s, b, size - TOP_FOOT_SIZE), Added(segs, s, b, size), p)
  {
    assert Followed(L, segs, p) && Isolated(L, s.top) && ChunksApart(L, p, s.top);
    hide Coalesced, Based, AllContained, Disjoint, AllFollowed, SegmentsApart, Shaped;
    var segs', L', r := Added(segs, s, b, size), WithSegment(L, s, b, size - TOP_FOOT_SIZE), RecordAt(s);
    var e := End(L', p);
    AddedBounds(segs, s, b, size, e);
    if p == s.top {
      LimitNotBase(segs, e);
    } else if e !in L {
      ChunkNotLimit(L', segs', e);
    }
  }

  lemma AddedTiled(L: Layout, segs: seq<Segment>, s: Spare, b: int, size: nat)
    requires Tiled(L, segs) && Coalesced(L) && TopOk(L, segs, s) && s.top != 0
    requires 0 < b && TOP_FOOT_SIZE < size && b + size < LIMIT && b % 16 == 0 && size % 16 == 0
    requires forall k :: 0 <= k < |segs| ==> b + size <= segs[k].base || segs[k].base + segs[k].size <= b
    ensures Tiled(WithSegment(L, s, b, size - TOP_FOOT_SIZE), Added(segs, s, b, size))
    ensures b !in L && b != RecordAt(s) && (RecordAt(s) in L ==> RecordAt(s) == s.top)
  {
    hide AllContained, Disjoint, AllFollowed, SegmentsApart, Coalesced, Based, Shaped, WithSegment;
    var n := size - TOP_FOOT_SIZE;
    var segs', L' := Added(segs, s, b, size), WithSegment(L, s, b, n);
    AddedSegments(L, segs, s, b, size);
    AddedClear(L, segs, s, b, size);
    AddedDisjoint(L, segs, s, b, n);
    AddedContained(L, segs, s, b, size);
    AddedBased(L, segs, s, b, size);
    AddedShaped(L, segs, s, b, n);
    AddedAllFollowed(L, segs, s, b, size);
  }

  lemma AddedShaped(L: Layout, segs: seq<Segment>, s: Spare, b: int, n: nat)
    requires Shaped(L) && TopOk(L, segs, s) && s.top != 0 && 0 < b && b % 16 == 0 && n > 0 && n % 16 == 0
    ensures Shaped(WithSegment(L, s, b, n))
  {}

  lemma AddedAllFollowed(L: Layout, segs: seq<Segment>, s: Spare, b: int, size: nat)
    requires Tiled(L, segs) && Coalesced(L) && TopOk(L, segs, s) && s.top != 0 && size > TOP_FOOT_SIZE
    requires AddedParts(L, segs, s, b, size) && b !in L && (RecordAt(s) in L ==> RecordAt(s) == s.top)
    ensures AllFollowed(WithSegment(L, s, b, size - TOP_FOOT_SIZE), Added(segs, s, b, size))
  {
    hide Tiled, Coalesced, AddedParts, WithSegment, Followed;
    var L' := WithSegment(L, s, b, size - TOP_FOOT_SIZE);
    forall p | p in L' ensures Followed(L', Added(segs, s, b, size), p) { AddedFollowed(L, segs, s, b, size, p); }
  }

  lemma AddedBased(L: Layout, segs: seq<Segment>, s: Spare, b: int, size: nat)
    requires Tiled(L, segs) && TopOk(L, segs, s) && s.top != 0 && size > TOP_FOOT_SIZE
    ensures Based(WithSegment(L, s, b, size - TOP_FOOT_SIZE), Added(segs, s, b, size))
  {
    var segs', L' := Added(segs, s, b, size), WithSegment(L, s, b, size - TOP_FOOT_SIZE);
    LimitNotBase(segs, LimitOf(segs, 0));
    assert IsLimit(segs, LimitOf(segs, 0));
    forall k | 0 <= k < |segs'| ensures segs'[k].base in L' && L'[segs'[k].base].pinuse {
      if k > 0 { assert segs'[k].base == segs[k - 1].base && IsBase(segs, segs[k - 1].base); }
    }
  }

  /** dv and top after a segment was added. */
  function AddedSpare(s: Spare, b: int, size: nat): Spare requires size >= TOP_FOOT_SIZE
  { s.(top := b, topsize := size - TOP_FOOT_SIZE) }

  lemma AddedLayout(L: Layout, segs: seq<Segment>, s: Spare, b: int, size: nat)
    requires LayoutOk(L, segs, s) && s.top != 0
    requires 0 < b && TOP_FOOT_SIZE < size && b + size < LIMIT && b % 16 == 0 && size % 16 == 0
    requires forall k :: 0 <= k < |segs| ==> b + size <= segs[k].base || segs[k].base + segs[k].size <= b
    ensures LayoutOk(WithSegment(L, s, b, size - TOP_FOOT_SIZE), Added(segs, s, b, size), AddedSpare(s, b, size))
    ensures Used(WithSegment(L, s, b, size - TOP_FOOT_SIZE)) == Used(L)[RecordAt(s) := RECORD_SIZE]
    ensures RecordAt(s) !in Used(L)
  {
    hide AllContained, Disjoint, AllFollowed, SegmentsApart, Based;
    var n := size - TOP_FOOT_SIZE;
    var segs', L' := Added(segs, s, b, size), WithSegment(L, s, b, n);
    AddedTiled(L, segs, s, b, size);
    AddedCoalesced(L, segs, s, b, size);
    forall k | 1 <= k < |segs'|
      ensures segs'[k].rec in L' && L'[segs'[k].rec].inuse && L'[segs'[k].rec].size == RECORD_SIZE
    {
      if k > 1 { assert segs'[k].rec == segs[k - 1].rec; }
    }
  }

  lemma AddedCoalesced(L: Layout, segs: seq<Segment>, s: Spare, b: int, size: nat)
    requires Tiled(L, segs) && Coalesced(L) && TopOk(L, segs, s) && s.top != 0 && size > TOP_FOOT_SIZE
    requires Tiled(WithSegment(L, s, b, size - TOP_FOOT_SIZE), Added(segs, s, b, size)) && b !in L && b != RecordAt(s)
    ensures Coalesced(WithSegment(L, s, b, size - TOP_FOOT_SIZE))
  {
    hide Disjoint, SegmentsApart, Based;
    var segs', L' := Added(segs, s, b, size), WithSegment(L, s, b, size - TOP_FOOT_SIZE);
    AddedBounds(segs, s, b, size, b);
    ChunkNotLimit(L', segs', b + size - TOP_FOOT_SIZE);
    forall p | p in L' ensures Isolated(L', p) {
      assert Followed(L', segs', p);
      if p in L { assert Isolated(L, p); }
    }
  }

  // ------------------------------------------------------------- a segment goes

  function Shorter(segs: seq<Segment>, k: nat): seq<Segment> requires k < |segs| { segs[..k] + segs[k + 1..] }

  ghost function Without(L: Layout, p: int, q: int): Layout { map r | r in L && r != p && r != q :: L[r] }

  /** Segment k is one free chunk and its record. */
  ghost predicate Empty(L: Layout, segs: seq<Segment>, k: nat) {
    && 1 <= k < |segs| && segs[k].base in L && !L[segs[k].base].inuse && End(L, segs[k].base) == segs[k].rec
    && segs[k].rec in L && L[segs[k].rec].size == RECORD_SIZE
  }

  /** The chunks of an empty segment are the two. */
  lemma EmptyInside(L: Layout, segs: seq<Segment>, k: nat, p: int)
    requires Tiled(L, segs) && Empty(L, segs, k) && p in L && p != segs[k].base && p != segs[k].rec
    ensures exists j: nat :: j != k && Within(segs, j, p, End(L, p))
  {
    assert Contained(segs, p, End(L, p)) && ChunksApart(L, p, segs[k].base) && ChunksApart(L, p, segs[k].rec);
    var j: nat :| Within(segs, j, p, End(L, p));
  }

  /** Index of segment j in the shorter list. */
  function Shift(k: nat, j: nat): nat { if j > k then j - 1 else j }

  lemma DroppedAt(segs: seq<Segment>, k: nat, j: nat)
    requires 1 <= k < |segs| && j < |segs| && j != k
    ensures Shift(k, j) < |Shorter(segs, k)| && Shorter(segs, k)[Shift(k, j)] == segs[j]
    ensures LimitOf(Shorter(segs, k), Shift(k, j)) == LimitOf(segs, j)
  {}

  lemma DroppedApart(segs: seq<Segment>, k: nat)
    requires SegmentsApart(segs) && 1 <= k < |segs|
    ensures SegmentsApart(Shorter(segs, k))
  {
    var segs' := Shorter(segs, k);
    forall i | 0 <= i < |segs'|
      ensures 0 < segs'[i].base < LimitOf(segs', i) <= segs'[i].base + segs'[i].size - 32
      ensures segs'[i].base + segs'[i].size < LIMIT
    {
      var j := if i < k then i else i + 1;
      DroppedAt(segs, k, j);
      assert segs[j] in segs;
    }
    forall i, j | 0 <= i < |segs'| && 0 <= j < |segs'| ensures SegApart(segs', i, j) {
      var i', j' := if i < k then i else i + 1, if j < k then j else j + 1;
      DroppedAt(segs, k, i');
      DroppedAt(segs, k, j');
      assert SegApart(segs, i', j');
    }
  }

  lemma DroppedBounds(segs: seq<Segment>, k: nat, a: int)
    requires SegmentsApart(segs) && 1 <= k < |segs|
    ensures IsBase(Shorter(segs, k), a) ==> IsBase(segs, a)
    ensures IsLimit(segs, a) && a != LimitOf(segs, k) ==> IsLimit(Shorter(segs, k), a)
  {
    var segs' := Shorter(segs, k);
    if IsBase(segs', a) {
      var i: nat :| 0 <= i < |segs'| && a == segs'[i].base;
      var j := if i < k then i else i + 1;
      DroppedAt(segs, k, j);
      assert a == segs[j].base;
    }
    if IsLimit(segs, a) && a != LimitOf(segs, k) {
      var j: nat :| 0 <= j < |segs| && a == LimitOf(segs, j);
      DroppedAt(segs, k, j);
      assert a == LimitOf(segs', Shift(k, j));
    }
  }

  lemma DroppedTiled(L: Layout, segs: seq<Segment>, k: nat)
    requires Tiled(L, segs) && Empty(L, segs, k)
    ensures Tiled(Without(L, segs[k].base, segs[k].rec), Shorter(segs, k))
  {
    var segs', L' := Shorter(segs, k), Without(L, segs[k].base, segs[k].rec);
    DroppedApart(segs, k);
    forall p, q | p in L' && q in L' ensures ChunksApart(L', p, q) { assert ChunksApart(L, p, q); }
    forall p | p in L' ensures Contained(segs', p, End(L', p)) { DroppedContained(L, segs, k, p); }
    forall p | p in L' ensures Followed(L', segs', p) { DroppedFollowed(L, segs, k, p); }
    DroppedBased(L, segs, k);
  }

  lemma DroppedContained(L: Layout, segs: seq<Segment>, k: nat, p: int)
    requires Tiled(L, segs) && Empty(L, segs, k) && p in L && p != segs[k].base && p != segs[k].rec
    ensures Contained(Shorter(segs, k), p, End(L, p))
  {
    EmptyInside(L, segs, k, p);
    var j: nat :| j != k && Within(segs, j, p, End(L, p));
    DroppedAt(segs, k, j);
    assert Within(Shorter(segs, k), Shift(k, j), p, End(L, p));
  }

  lemma DroppedBased(L: Layout, segs: seq<Segment>, k: nat)
    requires Tiled(L, segs) && Empty(L, segs, k)
    ensures Based(Without(L, segs[k].base, segs[k].rec), Shorter(segs, k))
  {
    var segs', L' := Shorter(segs, k), Without(L, segs[k].base, segs[k].rec);
    forall i | 0 <= i < |segs'| ensures segs'[i].base in L' && L'[segs'[i].base].pinuse {
      var j := if i < k then i else i + 1;
      DroppedAt(segs, k, j);
      assert SegApart(segs, j, k);
      Bounds(segs, j);
      Bounds(segs, k);
    }
  }

  lemma DroppedFollowed(L: Layout, segs: seq<Segment>, k: nat, p: int)
    requires Tiled(L, segs) && Empty(L, segs, k) && p in L && p != segs[k].base && p != segs[k].rec
    ensures Followed(Without(L, segs[k].base, segs[k].rec), Shorter(segs, k), p)
  {
    var e, b, r := End(L, p), segs[k].base, segs[k].rec;
    assert Followed(L, segs, p) && ChunksApart(L, p, b) && ChunksApart(L, p, r);
    DroppedBounds(segs, k, e);
    assert IsBase(segs, b);
  }

  lemma DroppedLayout(L: Layout, segs: seq<Segment>, s: Spare, k: nat)
    requires LayoutOk(L, segs, s) && Empty(L, segs, k) && s.dv != segs[k].base
    ensures LayoutOk(Without(L, segs[k].base, segs[k].rec), Shorter(segs, k), s)
    ensures Used(Without(L, segs[k].base, segs[k].rec)) == Used(L) - {segs[k].rec}
  {
    hide AllContained, Based, SegmentsApart;
    var segs', L' := Shorter(segs, k), Without(L, segs[k].base, segs[k].rec);
    DroppedTiled(L, segs, k);
    DroppedCoalesced(L, segs, k);
    DroppedRecorded(L, segs, k);
    DroppedTop(L, segs, s, k);
  }

  lemma DroppedCoalesced(L: Layout, segs: seq<Segment>, k: nat)
    requires Tiled(L, segs) && Coalesced(L) && Empty(L, segs, k)
    ensures Coalesced(Without(L, segs[k].base, segs[k].rec))
  {
    forall p | p in Without(L, segs[k].base, segs[k].rec) ensures Isolated(Without(L, segs[k].base, segs[k].rec), p) {
      assert Isolated(L, p);
    }
  }

  lemma DroppedRecorded(L: Layout, segs: seq<Segment>, k: nat)
    requires Tiled(L, segs) && Recorded(L, segs) && Empty(L, segs, k)
    ensures Recorded(Without(L, segs[k].base, segs[k].rec), Shorter(segs, k))
  {
    var segs', L' := Shorter(segs, k), Without(L, segs[k].base, segs[k].rec);
    forall i | 1 <= i < |segs'|
      ensures segs'[i].rec in L' && L'[segs'[i].rec].inuse && L'[segs'[i].rec].size == RECORD_SIZE
    {
      var j := if i < k then i else i + 1;
      DroppedAt(segs, k, j);
      assert SegApart(segs, j, k) && segs[j].rec in L;
      Bounds(segs, j);
      Bounds(segs, k);
      RecordWithin(L, segs, j);
      RecordWithin(L, segs, k);
    }
  }

  /** A record lies in the segment it describes. */
  lemma RecordWithin(L: Layout, segs: seq<Segment>, j: nat)
    requires Tiled(L, segs) && Recorded(L, segs) && 1 <= j < |segs|
    ensures segs[j].base <= segs[j].rec < segs[j].base + segs[j].size
  {
    var r := segs[j].rec;
    assert r in L && Contained(segs, r, End(L, r));
    var i: nat :| Within(segs, i, r, End(L, r));
    Bounds(segs, i);
    Bounds(segs, j);
    SameSegment(segs, i, j, End(L, r) - 1);
  }

  lemma DroppedTop(L: Layout, segs: seq<Segment>, s: Spare, k: nat)
    requires Tiled(L, segs) && TopOk(L, segs, s) && DvOk(L, s) && Empty(L, segs, k) && s.dv != segs[k].base
    requires L[segs[k].rec].inuse
    ensures TopOk(Without(L, segs[k].base, segs[k].rec), Shorter(segs, k), s)
    ensures DvOk(Without(L, segs[k].base, segs[k].rec), s)
  {
    DroppedAt(segs, k, 0);
    assert IsLimit(segs, LimitOf(segs, 0));
    ChunkNotLimit(L, segs, LimitOf(segs, 0));
  }

  // ------------------------------------------------------------- the first segment

  lemma FirstLayout(b: int, size: nat)
    requires 0 < b && TOP_FOOT_SIZE < size && b + size < LIMIT && b % 16 == 0 && size % 16 == 0
    ensures LayoutOk(map[b := Chunk(size - TOP_FOOT_SIZE, false, true)], [Segment(b, size, 0)],
                     Spare(0, 0, b, size - TOP_FOOT_SIZE))
  {
    var L: Layout, segs := map[b := Chunk(size - TOP_FOOT_SIZE, false, true)], [Segment(b, size, 0)];
    assert LimitOf(segs, 0) == b + size - TOP_FOOT_SIZE;
    assert Within(segs, 0, b, End(L, b));
    assert Isolated(L, b) && Followed(L, segs, b);
  }
}
