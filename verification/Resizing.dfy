/** Growing a chunk in use over the chunk after it. */
module Resizing {
  import opened Words
  import opened Bins
  import opened Layout
  import opened LayoutFacts
  import opened Heap
  import opened Merging
  import opened Carving

  // ------------------------------------------------------------- taking in the whole next chunk

  /** p is in use and so, from now on, is all of the chunk after it. */
  ghost function Annexed(L: Layout, p: int): Layout requires p in L && End(L, p) in L
  { Fuse(L, p, End(L, End(L, p)), true) }

  /** The chunk after p can be joined to it: it is in no bin, and neither is a segment record. */
  ghost predicate Joinable(L: Layout, segs: seq<Segment>, s: Spare, p: int) {
    && p in L && L[p].inuse && End(L, p) in L && !IsRecord(segs, p) && !IsRecord(segs, End(L, p))
    && End(L, p) != s.dv && End(L, p) != s.top
  }

  lemma JoinSpans(L: Layout, segs: seq<Segment>, p: int)
    requires Tiled(L, segs) && p in L && End(L, p) in L
    ensures Spans(L, segs, p, End(L, End(L, p)))
    ensures forall q :: q in L && p < q < End(L, End(L, p)) ==> q == End(L, p)
  {
    var n := End(L, p);
    AdjacentContained(L, segs, p);
    assert Followed(L, segs, n);
    forall q | q in L && p < q < End(L, n) ensures q == n { assert ChunksApart(L, p, q) && ChunksApart(L, n, q); }
  }

  lemma JoinLayout(L: Layout, segs: seq<Segment>, s: Spare, p: int)
    requires LayoutOk(L, segs, s) && Joinable(L, segs, s, p)
    ensures LayoutOk(Annexed(L, p), segs, s)
    ensures Used(Annexed(L, p)) == (Used(L) - {End(L, p)})[p := L[p].size + L[End(L, p)].size]
  {
    hide AllContained, Based, SegmentsApart, Disjoint, Annexed, AllFollowed, Shaped, Coalesced, MinSized, Recorded,
      DvOk, TopOk, Used;
    JoinSpans(L, segs, p);
    JoinIsTiled(L, segs, p);
    JoinCoalesced(L, segs, p);
    JoinRecorded(L, segs, p);
    JoinRest(L, segs, s, p);
    JoinUsed(L, p);
  }

  lemma JoinIsTiled(L: Layout, segs: seq<Segment>, p: int)
    requires Tiled(L, segs) && p in L && End(L, p) in L && Spans(L, segs, p, End(L, End(L, p)))
    ensures Tiled(Annexed(L, p), segs)
  {
    FuseTiled(L, segs, p, End(L, End(L, p)), true);
  }

  lemma JoinRest(L: Layout, segs: seq<Segment>, s: Spare, p: int)
    requires Shaped(L) && MinSized(L, s.top) && DvOk(L, s) && TopOk(L, segs, s) && Joinable(L, segs, s, p)
    requires forall q :: q in L && p < q < End(L, End(L, p)) ==> q == End(L, p)
    ensures MinSized(Annexed(L, p), s.top) && DvOk(Annexed(L, p), s) && TopOk(Annexed(L, p), segs, s)
  {}

  lemma JoinUsed(L: Layout, p: int)
    requires Shaped(L) && p in L && End(L, p) in L && forall q :: q in L && p < q < End(L, End(L, p)) ==> q == End(L, p)
    ensures Used(Annexed(L, p)) == (Used(L) - {End(L, p)})[p := L[p].size + L[End(L, p)].size]
  {}

  lemma JoinRecorded(L: Layout, segs: seq<Segment>, p: int)
    requires Recorded(L, segs) && p in L && End(L, p) in L && !IsRecord(segs, p) && !IsRecord(segs, End(L, p))
    requires forall q :: q in L && p < q < End(L, End(L, p)) ==> q == End(L, p)
    ensures Recorded(Annexed(L, p), segs)
  {
    forall k | 1 <= k < |segs|
      ensures segs[k].rec in Annexed(L, p) && Annexed(L, p)[segs[k].rec].inuse
      ensures Annexed(L, p)[segs[k].rec].size == RECORD_SIZE
    {
      assert IsRecord(segs, segs[k].rec) && segs[k].rec in L;
    }
  }

  lemma JoinCoalesced(L: Layout, segs: seq<Segment>, p: int)
    requires Coalesced(L) && AllFollowed(L, segs) && p in L && L[p].inuse && End(L, p) in L
    requires forall q :: q in L && p < q < End(L, End(L, p)) ==> q == End(L, p)
    ensures Coalesced(Annexed(L, p))
  {
    var L' := Annexed(L, p);
    forall q | q in L' ensures Isolated(L', q) {
      assert Isolated(L, q) && Followed(L, segs, q);
    }
  }

  /** set_inuse: size and cinuse of this chunk, pinuse of the next. */
  function SetInuse(w: Memory, p: int, size: nat): Memory {
    var h := Rd(w, HeadAt(p));
    var w1 := w[HeadAt(p) := h % 2 + size + 2];
    var h' := Rd(w1, HeadAt(p + size));
    w1[HeadAt(p + size) := if h' % 2 == 1 then h' else h' + 1]
  }

  lemma JoinTagged(w: Memory, L: Layout, segs: seq<Segment>, s: Spare, p: int)
    requires LayoutOk(L, segs, s) && Tagged(w, L, s.top) && Joinable(L, segs, s, p) && End(L, End(L, p)) in L
    ensures Tagged(SetInuse(w, p, L[p].size + L[End(L, p)].size), Annexed(L, p), s.top)
  {
    hide Coalesced, AllContained, Based, SegmentsApart, Recorded, MinSized, JoinWrites, SetInuse, Annexed;
    JoinWritten(w, L, segs, p);
    JoinTags(w, SetInuse(w, p, L[p].size + L[End(L, p)].size), L, p, s.top);
  }

  lemma JoinWritten(w: Memory, L: Layout, segs: seq<Segment>, p: int)
    requires Tiled(L, segs) && Heads(w, L) && p in L && L[p].inuse && End(L, p) in L && End(L, End(L, p)) in L
    ensures JoinWrites(w, SetInuse(w, p, L[p].size + L[End(L, p)].size), L, p)
  {
    var e := End(L, End(L, p));
    HeadFields(w, p, L[p]);
    HeadFields(w, e, L[e]);
    hide Tiled, Heads;
  }

  lemma JoinTags(w: Memory, w': Memory, L: Layout, p: int, top: int)
    requires Shaped(L) && Tagged(w, L, top) && p in L && L[p].inuse && End(L, p) in L && End(L, End(L, p)) in L
    requires JoinWrites(w, w', L, p)
    ensures Tagged(w', Annexed(L, p), top)
  {
    JoinHeads(w, w', L, p);
    JoinFeet(w, w', L, p, top);
  }

  /** Only the head of the joined chunk and of the one after it are written, and rightly. */
  ghost predicate JoinWrites(w: Memory, w': Memory, L: Layout, p: int)
    requires p in L && End(L, p) in L && End(L, End(L, p)) in L
  {
    var e := End(L, End(L, p));
    && (forall a :: a != HeadAt(p) && a != HeadAt(e) ==> Rd(w', a) == Rd(w, a))
    && Rd(w', HeadAt(p)) == HeadWord(Chunk(e - p, true, L[p].pinuse))
    && Rd(w', HeadAt(e)) == HeadWord(L[e].(pinuse := true))
  }

  lemma JoinHeads(w: Memory, w': Memory, L: Layout, p: int)
    requires Shaped(L) && Heads(w, L) && p in L && End(L, p) in L && End(L, End(L, p)) in L && JoinWrites(w, w', L, p)
    ensures Heads(w', Annexed(L, p))
  {
    var L', e := Annexed(L, p), End(L, End(L, p));
    forall q | q in L' ensures Rd(w', HeadAt(q)) == HeadWord(L'[q]) {
      if q != p && q != e { assert L'[q] == L[q]; }
    }
  }

  lemma JoinFeet(w: Memory, w': Memory, L: Layout, p: int, top: int)
    requires Shaped(L) && Feet(w, L, top) && p in L && End(L, p) in L && End(L, End(L, p)) in L
    requires JoinWrites(w, w', L, p)
    ensures Feet(w', Annexed(L, p), top)
  {
    var L', e := Annexed(L, p), End(L, End(L, p));
    forall q | q in L ensures FootAt(End(L, q)) != HeadAt(p) && FootAt(End(L, q)) != HeadAt(e) {
      FootNotHead(q, L[q].size, p, 0);
      FootNotHead(q, L[q].size, e, 0);
    }
    hide Shaped;
    forall q | q in L' && !L'[q].inuse && q != top ensures Rd(w', FootAt(End(L', q))) == L'[q].size {
      assert q in L && q != p && L'[q].size == L[q].size && !L[q].inuse;
    }
  }

  lemma JoinSafe(w: Memory, L: Layout, segs: seq<Segment>, p: int, w': Memory, size: map<int, nat>)
    requires Tiled(L, segs) && p in L && L[p].inuse && End(L, p) in L && FreeIn(L, size) && End(L, p) !in size
    requires End(L, End(L, p)) in L
    requires forall a :: a != HeadAt(p) && a != HeadAt(End(L, End(L, p))) ==> Rd(w', a) == Rd(w, a)
    ensures PayloadSafe(w, w', L, segs) && OffBodies(w, w', size)
  {
    var n := End(L, p);
    var e := End(L, n);
    assert Contained(segs, p, n) && Contained(segs, n, e);
    NearSegment(segs, p, n, HeadAt(p));
    NearSegment(segs, n, e, HeadAt(e));
    assert OfChunk(L, HeadAt(p)) by { assert p <= HeadAt(p) < End(L, p) + 8; }
    assert OfChunk(L, HeadAt(e)) by { assert e <= HeadAt(e) < End(L, e) + 8; }
    CalmBy(w, w', L, segs);
    forall u, a | InPayload(L, u, a)
      ensures Rd(w', a) == Rd(w, a)
    {
      assert ChunksApart(L, p, u) && ChunksApart(L, n, u);
    }
    forall a | Rd(w', a) != Rd(w, a) ensures a >= 0 && !InBody(a, size) {
      forall r | r in size ensures !(r + 16 <= a < r + size[r]) { assert ChunksApart(L, p, r) && ChunksApart(L, n, r); }
    }
  }

  lemma JoinState(w: Memory, L: Layout, segs: seq<Segment>, s: Spare, p: int, g: Index)
    requires LayoutOk(L, segs, s) && Tagged(w, L, s.top) && Joinable(L, segs, s, p)
    requires Indexed(L, g.size, s, {End(L, p)}) && Structured(g) && Threaded(w, g)
    ensures var T := L[p].size + L[End(L, p)].size;
      var w', L' := SetInuse(w, p, T), Annexed(L, p);
      && LayoutOk(L', segs, s) && Tagged(w', L', s.top) && Indexed(L', g.size, s, {}) && Threaded(w', g)
      && PayloadSafe(w, w', L, segs) && Used(L') == (Used(L) - {End(L, p)})[p := T] && p in L'
      && L'[p] == Chunk(T, true, L[p].pinuse)
  {
    hide LayoutOk, Tagged, Structured, Threaded, PayloadSafe, OffBodies, Used;
    var n := End(L, p);
    var T := L[p].size + L[n].size;
    NextOf(L, segs, s, n);
    JoinLayout(L, segs, s, p);
    JoinTagged(w, L, segs, s, p);
    IndexFree(L, g.size, s, {n});
    JoinEffect(w, L, segs, s, p);
    JoinSafeOf(w, L, segs, s, p, SetInuse(w, p, T), g.size);
    OffBodiesThreaded(w, SetInuse(w, p, T), g);
    JoinIndexed(L, segs, s, p, g.size);
  }

  lemma NextOf(L: Layout, segs: seq<Segment>, s: Spare, n: int)
    requires LayoutOk(L, segs, s) && n in L && n != s.top && !IsRecord(segs, n)
    ensures End(L, n) in L
  {
    HasNext(L, segs, s, n);
  }

  lemma JoinEffect(w: Memory, L: Layout, segs: seq<Segment>, s: Spare, p: int)
    requires LayoutOk(L, segs, s) && p in L && End(L, p) in L
    ensures var w' := SetInuse(w, p, L[p].size + L[End(L, p)].size);
      forall a :: a != HeadAt(p) && a != HeadAt(End(L, End(L, p))) ==> Rd(w', a) == Rd(w, a)
    ensures p in Annexed(L, p) && Annexed(L, p)[p] == Chunk(L[p].size + L[End(L, p)].size, true, L[p].pinuse)
  {}

  lemma JoinSafeOf(w: Memory, L: Layout, segs: seq<Segment>, s: Spare, p: int, w': Memory, size: map<int, nat>)
    requires LayoutOk(L, segs, s) && p in L && L[p].inuse && End(L, p) in L && FreeIn(L, size) && End(L, p) !in size
    requires End(L, End(L, p)) in L
    requires forall a :: a != HeadAt(p) && a != HeadAt(End(L, End(L, p))) ==> Rd(w', a) == Rd(w, a)
    ensures PayloadSafe(w, w', L, segs) && OffBodies(w, w', size)
  {
    hide Coalesced, Recorded, MinSized;
    JoinSafe(w, L, segs, p, w', size);
  }

  lemma JoinIndexed(L: Layout, segs: seq<Segment>, s: Spare, p: int, size: map<int, nat>)
    requires LayoutOk(L, segs, s) && Joinable(L, segs, s, p) && Indexed(L, size, s, {End(L, p)})
    ensures Indexed(Annexed(L, p), size, s, {})
  {
    hide Coalesced, Recorded, MinSized, AllContained, AllFollowed, Based, SegmentsApart;
    JoinSpans(L, segs, p);
  }

  // ------------------------------------------------------------- moving the boundary into dv or top

  /** The boundary between p and the free chunk after it moves so that p has n bytes. */
  ghost function Shoved(L: Layout, p: int, n: nat): Layout
    requires p in L && End(L, p) in L && n <= L[p].size + L[End(L, p)].size
  {
    var r := L[p].size + L[End(L, p)].size - n;
    (map q | q in L && q != End(L, p) :: L[q])[p := L[p].(size := n)][p + n := Chunk(r, false, true)]
  }

  /** p can grow to n bytes, and the free chunk after it stays a chunk. */
  ghost predicate Movable(L: Layout, segs: seq<Segment>, s: Spare, p: int, n: nat) {
    && p in L && L[p].inuse && !IsRecord(segs, p) && End(L, p) in L && !L[End(L, p)].inuse
    && (End(L, p) == s.dv || End(L, p) == s.top)
    && L[p].size < n && n % 16 == 0
    && var r := L[p].size + L[End(L, p)].size - n; if End(L, p) == s.top then r > 0 else r >= MIN_CHUNK_SIZE
  }

  function MovedSpare(s: Spare, p: int, n: nat, was: int, r: nat): Spare
  { if was == s.top then s.(top := p + n, topsize := r) else s.(dv := p + n, dvsize := r) }

  lemma MovedTiled(L: Layout, segs: seq<Segment>, p: int, n: nat)
    requires Tiled(L, segs) && p in L && L[p].inuse && End(L, p) in L && !L[End(L, p)].inuse
    requires L[p].size < n < L[p].size + L[End(L, p)].size && n % 16 == 0
    ensures Tiled(Shoved(L, p, n), segs) && p + n !in L
  {
    hide SegmentsApart, AllContained, Based, Disjoint;
    var e := End(L, End(L, p));
    JoinSpans(L, segs, p);
    FuseTiled(L, segs, p, e, true);
    var L1 := Fuse(L, p, e, true);
    SplitTiled(L1, segs, p, n);
    var L2 := Split(L1, p, n);
    WholeSpans(L2, segs, p + n);
    FuseTiled(L2, segs, p + n, e, false);
    MovedIs(L, L1, L2, segs, p, n, e);
  }

  lemma MovedIs(L: Layout, L1: Layout, L2: Layout, segs: seq<Segment>, p: int, n: nat, e: int)
    requires Shaped(L) && AllFollowed(L, segs) && p in L && L[p].inuse && End(L, p) in L && !L[End(L, p)].inuse
    requires e == End(L, End(L, p))
    requires L[p].size < n < L[p].size + L[End(L, p)].size
    requires L1 == Fuse(L, p, e, true) && L2 == Split(L1, p, n)
    requires forall q :: q in L && p < q < e ==> q == End(L, p)
    ensures Fuse(L2, p + n, e, false) == Shoved(L, p, n) && p + n !in L
  {
    assert Followed(L, segs, End(L, p));
    assert forall q :: q in Fuse(L2, p + n, e, false) <==> q in Shoved(L, p, n);
  }

  lemma MovedInside(L: Layout, segs: seq<Segment>, p: int)
    requires Tiled(L, segs) && p in L && End(L, p) in L
    ensures forall q :: q in L && p < q < End(L, End(L, p)) ==> q == End(L, p)
  {
    JoinSpans(L, segs, p);
  }

  lemma MovedCoalesced(L: Layout, segs: seq<Segment>, p: int, n: nat)
    requires Disjoint(L) && Shaped(L) && AllFollowed(L, segs) && Coalesced(L) && p in L && L[p].inuse
    requires End(L, p) in L && !L[End(L, p)].inuse
    requires L[p].size < n < L[p].size + L[End(L, p)].size && p + n !in L
    requires forall q :: q in L && p < q < End(L, End(L, p)) ==> q == End(L, p)
    ensures Coalesced(Shoved(L, p, n))
  {
    var L' := Shoved(L, p, n);
    assert Isolated(L, End(L, p));
    forall q | q in L' ensures Isolated(L', q) {
      if q in L { assert Isolated(L, q) && Followed(L, segs, q) && ChunksApart(L, q, End(L, p)); }
    }
  }

  lemma MovedLayout(L: Layout, segs: seq<Segment>, s: Spare, p: int, n: nat)
    requires LayoutOk(L, segs, s) && Movable(L, segs, s, p, n)
    ensures LayoutOk(Shoved(L, p, n), segs, MovedSpare(s, p, n, End(L, p), L[p].size + L[End(L, p)].size - n))
    ensures Used(Shoved(L, p, n)) == Used(L)[p := n] && p + n !in L
  {
    hide AllContained, Based, SegmentsApart, Shoved, MinSized, Recorded, DvOk, TopOk, Used;
    MovedInside(L, segs, p);
    MovedTiled(L, segs, p, n);
    MovedCoalesced(L, segs, p, n);
    MovedRest(L, segs, s, p, n);
  }

  lemma MovedRest(L: Layout, segs: seq<Segment>, s: Spare, p: int, n: nat)
    requires Shaped(L) && MinSized(L, s.top) && DvOk(L, s) && TopOk(L, segs, s) && Recorded(L, segs)
    requires Movable(L, segs, s, p, n) && p + n !in L
    ensures MinSized(Shoved(L, p, n), MovedSpare(s, p, n, End(L, p), L[p].size + L[End(L, p)].size - n).top)
    ensures var s' := MovedSpare(s, p, n, End(L, p), L[p].size + L[End(L, p)].size - n);
      DvOk(Shoved(L, p, n), s') && TopOk(Shoved(L, p, n), segs, s')
    ensures Recorded(Shoved(L, p, n), segs) && Used(Shoved(L, p, n)) == Used(L)[p := n]
  {
    forall k | 1 <= k < |segs|
      ensures segs[k].rec in Shoved(L, p, n) && Shoved(L, p, n)[segs[k].rec] == L[segs[k].rec]
    {
      assert IsRecord(segs, segs[k].rec) && segs[k].rec in L;
    }
  }

  /** The writes: both heads, and the foot of the free chunk unless it is top. */
  ghost predicate MoveWrites(w: Memory, w': Memory, L: Layout, p: int, n: nat, top: int)
    requires p in L && End(L, p) in L && n <= L[p].size + L[End(L, p)].size
  {
    var e, r := End(L, End(L, p)), L[p].size + L[End(L, p)].size - n;
    && (forall a :: a != HeadAt(p) && a != HeadAt(p + n) && a != FootAt(e) ==> Rd(w', a) == Rd(w, a))
    && Rd(w', HeadAt(p)) == HeadWord(Chunk(n, true, L[p].pinuse))
    && Rd(w', HeadAt(p + n)) == HeadWord(Chunk(r, false, true))
    && (End(L, p) != top ==> Rd(w', FootAt(e)) == r)
  }

  lemma EndWhole(L: Layout, q: int)
    requires Shaped(L) && q in L
    ensures End(L, q) % 16 == 0
  {
    Sum16(q, L[q].size);
  }

  lemma Sum16(x: int, y: int)
    requires x % 16 == 0 && y % 16 == 0
    ensures (x + y) % 16 == 0
  {
    assert x + y == 16 * (x / 16 + y / 16);
  }

  lemma MovedIndexed(L: Layout, segs: seq<Segment>, s: Spare, size: map<int, nat>, p: int, n: nat)
    requires Indexed(L, size, s, {}) && Movable(L, segs, s, p, n) && p + n !in L && s.dv != s.top
    ensures Indexed(Shoved(L, p, n), size, MovedSpare(s, p, n, End(L, p), L[p].size + L[End(L, p)].size - n), {})
  {}

  lemma MovedHeads(w: Memory, w': Memory, L: Layout, p: int, n: nat, top: int)
    requires Shaped(L) && Heads(w, L) && p in L && L[p].inuse && End(L, p) in L && n < L[p].size + L[End(L, p)].size
    requires n % 16 == 0 && p + n !in L
    requires MoveWrites(w, w', L, p, n, top)
    ensures Heads(w', Shoved(L, p, n))
  {
    var L', e := Shoved(L, p, n), End(L, End(L, p));
    EndWhole(L, End(L, p));
    forall q | q in L' ensures Rd(w', HeadAt(q)) == HeadWord(L'[q]) {
      if q != p && q != p + n { assert q in L && L'[q] == L[q] && HeadAt(q) != FootAt(e); }
    }
  }

  lemma MovedFeet(w: Memory, w': Memory, L: Layout, p: int, n: nat, top: int, top': int)
    requires Disjoint(L) && Shaped(L) && Feet(w, L, top) && p in L && L[p].inuse && End(L, p) in L
    requires !L[End(L, p)].inuse
    requires L[p].size < n < L[p].size + L[End(L, p)].size && n % 16 == 0 && p + n !in L
    requires MoveWrites(w, w', L, p, n, top)
    requires top' == if End(L, p) == top then p + n else top
    ensures Feet(w', Shoved(L, p, n), top')
  {
    var L', m := Shoved(L, p, n), End(L, p);
    forall q | q in L && !L[q].inuse && q != m && q != top
      ensures Rd(w', FootAt(End(L, q))) == L[q].size
    {
      OtherFoot(w, w', L, p, n, top, q);
    }
    hide Disjoint, Feet, MoveWrites;
    forall q | q in L' && !L'[q].inuse && q != top' ensures Rd(w', FootAt(End(L', q))) == L'[q].size {
      if q != p + n { assert q in L && L'[q] == L[q] && q != m; }
    }
  }

  lemma OtherFoot(w: Memory, w': Memory, L: Layout, p: int, n: nat, top: int, q: int)
    requires Disjoint(L) && Shaped(L) && Feet(w, L, top) && p in L && End(L, p) in L && n % 16 == 0
    requires n <= L[p].size + L[End(L, p)].size && MoveWrites(w, w', L, p, n, top)
    requires q in L && !L[q].inuse && q != End(L, p) && q != top
    ensures Rd(w', FootAt(End(L, q))) == L[q].size
  {
    assert ChunksApart(L, q, End(L, p));
    FootNotHead(q, L[q].size, p, 0);
    FootNotHead(q, L[q].size, p, n);
  }

  lemma FootNotHead(q: int, size: nat, p: int, n: nat)
    requires q % 16 == 0 && size % 16 == 0 && p % 16 == 0 && n % 16 == 0
    ensures FootAt(q + size) != HeadAt(p + n)
  {
    Multiples16(q, size);
    Multiples16(p, n);
    Multiples16(q + size, p + n);
  }

  lemma MovedCalm(w: Memory, w': Memory, L: Layout, segs: seq<Segment>, p: int, n: nat, top: int)
    requires Tiled(L, segs) && p in L && End(L, p) in L
    requires L[p].size < n < L[p].size + L[End(L, p)].size && MoveWrites(w, w', L, p, n, top)
    ensures Calm(w, w', segs)
  {
    var m := End(L, p);
    var e := End(L, m);
    assert OfChunk(L, HeadAt(p)) by { assert p <= HeadAt(p) < End(L, p) + 8; }
    assert OfChunk(L, HeadAt(p + n)) by { assert m <= HeadAt(p + n) < End(L, m) + 8; }
    assert OfChunk(L, FootAt(e)) by { assert m <= e < End(L, m) + 8; }
    CalmBy(w, w', L, segs);
  }

  lemma MovedSafe(w: Memory, w': Memory, L: Layout, segs: seq<Segment>, p: int, n: nat, top: int, size: map<int, nat>)
    requires Tiled(L, segs) && p in L && L[p].inuse && End(L, p) in L && !L[End(L, p)].inuse && FreeIn(L, size)
    requires End(L, p) !in size
    requires L[p].size < n < L[p].size + L[End(L, p)].size && n % 16 == 0 && MoveWrites(w, w', L, p, n, top)
    ensures PayloadSafe(w, w', L, segs) && OffBodies(w, w', size)
  {
    MovedCalm(w, w', L, segs, p, n, top);
    MovedLocal(w, w', L, segs, p, n, top);
    hide Tiled, Calm, Local, MoveWrites;
    assert Disjoint(L) && Shaped(L) by { TiledOnly(L, segs); }
    forall u, a | InPayload(L, u, a) ensures Rd(w', a) == Rd(w, a) { MovedPayload(w, w', L, p, n, top, u, a); }
    forall a | Rd(w', a) != Rd(w, a) ensures a >= 0 && !InBody(a, size) { MovedBody(w, w', L, p, n, top, size, a); }
  }

  lemma TiledOnly(L: Layout, segs: seq<Segment>) requires Tiled(L, segs) ensures Disjoint(L) && Shaped(L) {}

  lemma MovedLocal(w: Memory, w': Memory, L: Layout, segs: seq<Segment>, p: int, n: nat, top: int)
    requires Tiled(L, segs) && p in L && End(L, p) in L
    requires L[p].size < n < L[p].size + L[End(L, p)].size && MoveWrites(w, w', L, p, n, top)
    ensures Local(w, w', segs)
  {
    var m := End(L, p);
    var e := End(L, m);
    assert Contained(segs, p, m) && Contained(segs, m, e);
    NearSegment(segs, p, m, HeadAt(p));
    NearSegment(segs, m, e, HeadAt(p + n));
    NearSegment(segs, m, e, e);
  }

  lemma MovedPayload(w: Memory, w': Memory, L: Layout, p: int, n: nat, top: int, u: int, a: int)
    requires Disjoint(L) && Shaped(L) && p in L && L[p].inuse && End(L, p) in L && !L[End(L, p)].inuse
    requires L[p].size < n < L[p].size + L[End(L, p)].size && n % 16 == 0 && MoveWrites(w, w', L, p, n, top)
    requires InPayload(L, u, a)
    ensures Rd(w', a) == Rd(w, a)
  {
    assert ChunksApart(L, p, u) && ChunksApart(L, End(L, p), u);
  }

  lemma MovedBody(w: Memory, w': Memory, L: Layout, p: int, n: nat, top: int, size: map<int, nat>, a: int)
    requires Disjoint(L) && Shaped(L) && p in L && L[p].inuse && End(L, p) in L && FreeIn(L, size) && End(L, p) !in size
    requires L[p].size < n < L[p].size + L[End(L, p)].size && n % 16 == 0 && MoveWrites(w, w', L, p, n, top)
    requires Rd(w', a) != Rd(w, a)
    ensures a >= 0 && !InBody(a, size)
  {
    forall r | r in size ensures !(r + 16 <= a < r + size[r]) {
      assert ChunksApart(L, p, r) && ChunksApart(L, End(L, p), r);
    }
  }

  lemma MovedState(w: Memory, w': Memory, L: Layout, segs: seq<Segment>, s: Spare, p: int, n: nat, g: Index)
    requires LayoutOk(L, segs, s) && Tagged(w, L, s.top) && Indexed(L, g.size, s, {}) && Structured(g) && Threaded(w, g)
    requires Movable(L, segs, s, p, n) && MoveWrites(w, w', L, p, n, s.top)
    ensures var s', L' := MovedSpare(s, p, n, End(L, p), L[p].size + L[End(L, p)].size - n), Shoved(L, p, n);
      && LayoutOk(L', segs, s') && Tagged(w', L', s'.top) && Indexed(L', g.size, s', {}) && Threaded(w', g)
      && PayloadSafe(w, w', L, segs) && Used(L') == Used(L)[p := n] && p in L' && L'[p].size == n
  {
    hide AllContained, Based, SegmentsApart, Coalesced, MinSized, Recorded, Structured, Threaded, PayloadSafe,
      OffBodies, Used, MoveWrites, AllFollowed;
    MovedLayout(L, segs, s, p, n);
    MovedHeads(w, w', L, p, n, s.top);
    MovedFeet(w, w', L, p, n, s.top, MovedSpare(s, p, n, End(L, p), L[p].size + L[End(L, p)].size - n).top);
    IndexFree(L, g.size, s, {});
    MovedSafe(w, w', L, segs, p, n, s.top, g.size);
    OffBodiesThreaded(w, w', g);
    MovedIndexed(L, segs, s, g.size, p, n);
    hide Indexed;
  }
}
