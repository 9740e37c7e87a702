/** Allocating as a change of layout: a free chunk comes into use, and what it has to spare is split off. */
module Carving {
  import opened Words
  import opened Bins
  import opened Layout
  import opened LayoutFacts
  import opened Heap
  import opened Merging

  /** The first n bytes of the free chunk p come into use. */
  ghost function Take(L: Layout, p: int, n: nat): Layout requires p in L && n <= L[p].size {
    var used := L[p := Chunk(n, true, L[p].pinuse)];
    if n == L[p].size then NotePrev(used, p + n, true) else used[p + n := Chunk(L[p].size - n, false, true)]
  }

  /** n bytes of p can be taken without leaving a remainder too small to be a chunk. */
  ghost predicate Takeable(L: Layout, p: int, n: nat, top: int) {
    && p in L && !L[p].inuse && n % 16 == 0 && n >= MIN_CHUNK_SIZE
    && if p == top then n < L[p].size else n == L[p].size || n + MIN_CHUNK_SIZE <= L[p].size
  }

  /** dv and top after n bytes of p, which is not dv, were taken. */
  function Shifted(s: Spare, p: int, n: nat): Spare
  { if p == s.top && n <= s.topsize then s.(top := p + n, topsize := s.topsize - n) else s }

  lemma Inside(L: Layout, p: int, n: nat)
    requires Disjoint(L) && Shaped(L) && p in L && 0 < n <= L[p].size
    ensures forall q :: q in L ==> !(p < q < p + n)
    ensures n < L[p].size ==> p + n !in L
  {
    forall q | q in L ensures !(p < q < End(L, p)) { assert ChunksApart(L, p, q); }
  }

  lemma WholeSpans(L: Layout, segs: seq<Segment>, p: int)
    requires Tiled(L, segs) && p in L
    ensures Spans(L, segs, p, End(L, p))
  {
    assert Followed(L, segs, p) && Contained(segs, p, End(L, p));
    Inside(L, p, L[p].size);
  }

  lemma TakenTiled(L: Layout, segs: seq<Segment>, p: int, n: nat)
    requires Tiled(L, segs) && p in L && !L[p].inuse && 0 < n <= L[p].size && n % 16 == 0
    ensures Tiled(Take(L, p, n), segs)
  {
    Inside(L, p, n);
    if n == L[p].size {
      WholeSpans(L, segs, p);
      FuseTiled(L, segs, p, p + n, true);
      assert Take(L, p, n) == Fuse(L, p, p + n, true);
    } else {
      var M := Split(L, p, n);
      SplitTiled(L, segs, p, n);
      WholeSpans(M, segs, p);
      FuseTiled(M, segs, p, p + n, true);
      assert Take(L, p, n) == Fuse(M, p, p + n, true);
    }
  }

  lemma TakenCoalesced(L: Layout, segs: seq<Segment>, p: int, n: nat)
    requires Disjoint(L) && Shaped(L) && AllFollowed(L, segs) && Coalesced(L) && p in L && !L[p].inuse
    requires 0 < n <= L[p].size
    ensures Coalesced(Take(L, p, n))
  {
    Inside(L, p, n);
    forall q | q in Take(L, p, n) ensures Isolated(Take(L, p, n), q) {
      assert Isolated(L, p) && (q in L ==> Isolated(L, q));
      if q in L { assert ChunksApart(L, p, q) && Followed(L, segs, q); }
    }
  }

  lemma TakenUsed(L: Layout, p: int, n: nat)
    requires Disjoint(L) && Shaped(L) && p in L && !L[p].inuse && 0 < n <= L[p].size
    ensures Used(Take(L, p, n)) == Used(L)[p := n]
  {
    Inside(L, p, n);
  }

  lemma TakenDvTop(L: Layout, segs: seq<Segment>, s: Spare, p: int, n: nat)
    requires Disjoint(L) && Shaped(L) && DvOk(L, s) && TopOk(L, segs, s) && Takeable(L, p, n, s.top) && p != s.dv
    ensures DvOk(Take(L, p, n), Shifted(s, p, n)) && TopOk(Take(L, p, n), segs, Shifted(s, p, n))
  {
    Inside(L, p, n);
  }

  lemma TakenLayout(L: Layout, segs: seq<Segment>, s: Spare, p: int, n: nat)
    requires LayoutOk(L, segs, s) && Takeable(L, p, n, s.top) && p != s.dv
    ensures LayoutOk(Take(L, p, n), segs, Shifted(s, p, n))
  {
    Inside(L, p, n);
    TakenTiled(L, segs, p, n);
    TakenCoalesced(L, segs, p, n);
    TakenDvTop(L, segs, s, p, n);
    TakenRecorded(L, segs, p, n);
    TakenMinSized(L, s.top, p, n);
  }

  lemma TakenRecorded(L: Layout, segs: seq<Segment>, p: int, n: nat)
    requires Disjoint(L) && Shaped(L) && Recorded(L, segs) && p in L && !L[p].inuse && 0 < n <= L[p].size
    ensures Recorded(Take(L, p, n), segs)
  {
    Inside(L, p, n);
  }

  lemma TakenMinSized(L: Layout, top: int, p: int, n: nat)
    requires Disjoint(L) && Shaped(L) && MinSized(L, top) && Takeable(L, p, n, top)
    ensures MinSized(Take(L, p, n), if p == top then p + n else top)
  {
    Inside(L, p, n);
  }

  lemma TakenIndexed(L: Layout, s: Spare, p: int, n: nat, size: map<int, nat>)
    requires Disjoint(L) && Shaped(L) && Indexed(L, size, s, {p}) && Takeable(L, p, n, s.top) && p != s.dv
    requires TopIs(L, s)
    requires Isolated(L, p)
    ensures Indexed(Take(L, p, n), size, Shifted(s, p, n), {p + n})
  {
    Inside(L, p, n);
  }

  ghost predicate TopIs(L: Layout, s: Spare) { s.top in L ==> L[s.top].size == s.topsize }

  // ------------------------------------------------------------------------- memory

  /** The head words of the taken chunk, of the remainder and of the chunk after, and the remainder's foot. */
  ghost predicate TakeTagged(w: Memory, w': Memory, L: Layout, p: int, n: nat,
                             top: int) requires p in L && n <= L[p].size {
    var e := End(L, p);
    && (forall a :: a != HeadAt(p) && a != HeadAt(p + n) && a != FootAt(e) ==> Rd(w', a) == Rd(w, a))
    && Rd(w', HeadAt(p)) == HeadWord(Chunk(n, true, L[p].pinuse))
    && (n < L[p].size ==> Rd(w', HeadAt(p + n)) == HeadWord(Chunk(L[p].size - n, false, true)))
    && (n < L[p].size && p != top ==> Rd(w', FootAt(e)) == L[p].size - n)
    && (n == L[p].size && e in L ==> Rd(w', HeadAt(e)) == HeadWord(L[e].(pinuse := true)))
  }

  lemma TakenTags(w: Memory, w': Memory, L: Layout, p: int, n: nat, top: int)
    requires Disjoint(L) && Shaped(L) && Tagged(w, L, top) && Takeable(L, p, n, top) && TakeTagged(w, w', L, p, n, top)
    ensures Tagged(w', Take(L, p, n), if p == top then p + n else top)
  {
    Inside(L, p, n);
    var L', e := Take(L, p, n), End(L, p);
    forall q | q in L' ensures Rd(w', HeadAt(q)) == HeadWord(L'[q]) {
      if q in L { assert HeadAt(q) != FootAt(e); }
    }
    forall q | q in L' && !L'[q].inuse && q != (if p == top then p + n else top)
      ensures Rd(w', FootAt(End(L', q))) == L'[q].size
    {
      if q in L { assert ChunksApart(L, p, q); }
    }
  }

  /** Taking writes no payload and no link word. */
  lemma TakenSafe(w: Memory, w': Memory, L: Layout, segs: seq<Segment>, p: int, n: nat, top: int, size: map<int, nat>)
    requires Disjoint(L) && Shaped(L) && SegmentsApart(segs) && AllContained(L, segs) && Takeable(L, p, n, top)
    requires TakeTagged(w, w', L, p, n, top)
    requires FreeIn(L, size) && p !in size && (n == L[p].size ==> End(L, p) in L)
    ensures PayloadSafe(w, w', L, segs) && OffBodies(w, w', size)
  {
    forall a | Rd(w', a) != Rd(w, a) ensures OfChunk(L, a) {
      if a == HeadAt(End(L, p)) {
        assert End(L, p) in L && End(L, p) <= a < End(L, End(L, p)) + 8;
      } else {
        assert p <= a < End(L, p) + 8;
      }
    }
    CalmBy(w, w', L, segs);
    assert Contained(segs, p, End(L, p));
    forall a | Rd(w', a) != Rd(w, a) ensures InSegs(segs, a) { NearSegment(segs, p, End(L, p), a); }
    forall u, a | InPayload(L, u, a) ensures Rd(w', a) == Rd(w, a) { assert ChunksApart(L, p, u); }
    forall a | Rd(w', a) != Rd(w, a) ensures a >= 0 && !InBody(a, size) {
      forall r | r in size ensures !(r + 16 <= a < r + size[r]) { assert ChunksApart(L, p, r); }
    }
  }

  lemma TakenState(w: Memory, w': Memory, L: Layout, segs: seq<Segment>, s: Spare, p: int, n: nat, g: Index)
    requires LayoutOk(L, segs, s) && Tagged(w, L, s.top) && Indexed(L, g.size, s, {p}) && Structured(g)
    requires Threaded(w, g)
    requires Takeable(L, p, n, s.top) && p != s.dv && TakeTagged(w, w', L, p, n, s.top)
    ensures LayoutOk(Take(L, p, n), segs, Shifted(s, p, n)) && Tagged(w', Take(L, p, n), Shifted(s, p, n).top)
    ensures Indexed(Take(L, p, n), g.size, Shifted(s, p, n), {p + n}) && Threaded(w', g)
    ensures PayloadSafe(w, w', L, segs) && Used(Take(L, p, n)) == Used(L)[p := n]
  {
    hide Tagged, OffBodies, PayloadSafe, AllContained, AllFollowed, Based, MinSized, Recorded, Structured, Threaded,
      TakeTagged, Take;
    TakenLayout(L, segs, s, p, n);
    TakenTags(w, w', L, p, n, s.top);
    assert Isolated(L, p);
    TakenIndexed(L, s, p, n, g.size);
    IndexFree(L, g.size, s, {p});
    if p != s.top { FreeHasNext(L, segs, s, p); }
    TakenSafe(w, w', L, segs, p, n, s.top, g.size);
    OffBodiesThreaded(w, w', g);
    TakenUsed(L, p, n);
  }
}
