/** Freeing as a change of layout: a chunk and its free neighbours become one free chunk. */
module Merging {
  import opened Words
  import opened Bits
  import opened Bins
  import opened Layout
  import opened LayoutFacts
  import opened Heap

  /** [q, e) is p with the free chunk before it, if any, and the free chunk after it, if any. */
  ghost predicate Run(L: Layout, q: int, p: int, e: int) {
    && p in L && L[p].inuse && q in L
    && (if L[p].pinuse then q == p else q < p && !L[q].inuse && End(L, q) == p)
    && End(L, p) in L
    && (if L[End(L, p)].inuse then e == End(L, p) else e == End(L, End(L, p)))
  }

  /** dv and top after the chunks from q to e have become one. */
  ghost predicate Reassigned(L: Layout, q: int, p: int, e: int, s: Spare,
                             s': Spare)
    requires p in L
  {
    if End(L, p) == s.top then
      && s'.top == q && s'.topsize == e - q
      && (if s.dv == q then s'.dv == 0 && s'.dvsize == 0 else s'.dv == s.dv && s'.dvsize == s.dvsize)
    else
      && s'.top == s.top && s'.topsize == s.topsize
      && (if s.dv == q || s.dv == End(L, p) then s'.dv == q && s'.dvsize == e - q
          else s'.dv == s.dv && s'.dvsize == s.dvsize)
  }

  /** Two adjacent chunks lie in one segment. */
  lemma AdjacentContained(L: Layout, segs: seq<Segment>, q: int)
    requires Tiled(L, segs) && q in L && End(L, q) in L
    ensures Contained(segs, q, End(L, End(L, q))) && !IsBase(segs, End(L, q)) && !IsLimit(segs, End(L, q))
  {
    var n := End(L, q);
    assert Followed(L, segs, q) && Contained(segs, q, n) && Contained(segs, n, End(L, n));
    var j: nat :| Within(segs, j, n, End(L, n));
    Bounds(segs, j);
    NotLimit(segs, j, n);
    var k: nat :| Within(segs, k, q, n);
    Bounds(segs, k);
    SameSegment(segs, j, k, n - 1);
    assert Within(segs, k, q, End(L, n));
  }

  lemma RunContained(L: Layout, segs: seq<Segment>, q: int, p: int, e: int)
    requires Tiled(L, segs) && Run(L, q, p, e)
    ensures q < e && Contained(segs, q, e) && e % 16 == 0
  {
    RunAligned(L, q, p, e);
    hide Shaped, Disjoint, AllContained, AllFollowed, Based;
    var n := End(L, p);
    AdjacentContained(L, segs, p);
    var k: nat :| Within(segs, k, p, End(L, n));
    Bounds(segs, k);
    if q != p {
      AdjacentContained(L, segs, q);
      var j: nat :| Within(segs, j, q, n);
      Bounds(segs, j);
      SameSegment(segs, j, k, p);
    }
    assert Within(segs, k, q, e);
  }

  lemma RunAligned(L: Layout, q: int, p: int, e: int)
    requires Shaped(L) && Run(L, q, p, e)
    ensures q <= p < End(L, p) <= e <= End(L, End(L, p)) && e % 16 == 0
  {
    Multiples16(p, L[p].size);
    Multiples16(End(L, p), L[End(L, p)].size);
  }

  /** Nothing but p and its neighbours starts between q and e. */
  lemma RunInside(L: Layout, q: int, p: int, e: int, r: int)
    requires Disjoint(L) && Shaped(L) && Run(L, q, p, e) && r in L && q < r < e
    ensures r == p || (r == End(L, p) && !L[r].inuse)
  {
    assert ChunksApart(L, q, r) && ChunksApart(L, p, r) && ChunksApart(L, End(L, p), r);
  }

  lemma RunSpans(L: Layout, segs: seq<Segment>, q: int, p: int, e: int)
    requires Tiled(L, segs) && Coalesced(L) && Run(L, q, p, e)
    ensures Spans(L, segs, q, e)
    ensures e in L ==> L[e].inuse
  {
    var n := End(L, p);
    RunContained(L, segs, q, p, e);
    assert Followed(L, segs, p) && Followed(L, segs, n) && Isolated(L, n) && Followed(L, segs, q);
    forall r | r in L && q < r < e ensures !IsBase(segs, r) { RunInside(L, q, p, e, r); }
  }

  lemma FreedCoalesced(L: Layout, segs: seq<Segment>, q: int, p: int, e: int)
    requires Tiled(L, segs) && Coalesced(L) && Run(L, q, p, e)
    ensures Coalesced(Fuse(L, q, e, false))
  {
    RunSpans(L, segs, q, p, e);
    var L' := Fuse(L, q, e, false);
    forall r | r in L' ensures Isolated(L', r) {
      assert Isolated(L, r) && Isolated(L, q) && Followed(L, segs, r);
    }
  }

  lemma FreedUsed(L: Layout, q: int, p: int, e: int)
    requires Disjoint(L) && Shaped(L) && Run(L, q, p, e)
    ensures Used(Fuse(L, q, e, false)) == Used(L) - {p}
  {
    var L' := Fuse(L, q, e, false);
    forall r ensures r in Used(L') <==> r in Used(L) && r != p {
      if r in L && q < r < e { RunInside(L, q, p, e, r); }
    }
  }

  /** The new layout is in order again, whichever of dv, top or the bins takes the merged chunk. */
  lemma FreedLayout(L: Layout, segs: seq<Segment>, q: int, p: int, e: int, s: Spare,
                    s': Spare)
    requires LayoutOk(L, segs, s) && Run(L, q, p, e) && !IsRecord(segs, p)
    requires Reassigned(L, q, p, e, s, s')
    ensures LayoutOk(Fuse(L, q, e, false), segs, s')
  {
    var L' := Fuse(L, q, e, false);
    RunSpans(L, segs, q, p, e);
    FuseTiled(L, segs, q, e, false);
    FreedCoalesced(L, segs, q, p, e);
    FreedDvTop(L, segs, q, p, e, s, s');
    FreedMinSized(L, q, p, e, s.top, s'.top);
    FreedRecorded(L, segs, q, p, e);
  }

  lemma FreedMinSized(L: Layout, q: int, p: int, e: int, top: int, top': int)
    requires Shaped(L) && MinSized(L, top) && Run(L, q, p, e) && q != top && (top in L ==> !L[top].inuse)
    requires top' == if End(L, p) == top then q else top
    ensures MinSized(Fuse(L, q, e, false), top')
  {}

  lemma FreedRecorded(L: Layout, segs: seq<Segment>, q: int, p: int, e: int)
    requires Disjoint(L) && Shaped(L) && Recorded(L, segs) && Run(L, q, p, e) && !IsRecord(segs, p)
    ensures Recorded(Fuse(L, q, e, false), segs)
  {
    var L' := Fuse(L, q, e, false);
    forall k | 1 <= k < |segs|
      ensures segs[k].rec in L' && L'[segs[k].rec].inuse && L'[segs[k].rec].size == RECORD_SIZE
    {
      var r := segs[k].rec;
      assert IsRecord(segs, r);
      if q < r < e { RunInside(L, q, p, e, r); }
    }
  }

  lemma FreedDvTop(L: Layout, segs: seq<Segment>, q: int, p: int, e: int, s: Spare,
                   s': Spare)
    requires Tiled(L, segs) && Coalesced(L) && DvOk(L, s) && TopOk(L, segs, s) && Run(L, q, p, e)
    requires Reassigned(L, q, p, e, s, s')
    ensures q != s.top
    ensures DvOk(Fuse(L, q, e, false), s') && TopOk(Fuse(L, q, e, false), segs, s')
  {
    RunTop(L, segs, q, p, e, s);
    RunSpans(L, segs, q, p, e);
    hide Coalesced;
    FreedTop(L, segs, q, p, e, s, s');
    FreedDv(L, segs, q, p, e, s, s');
  }

  /** top, if it is part of the run at all, is its last chunk. */
  lemma RunTop(L: Layout, segs: seq<Segment>, q: int, p: int, e: int, s: Spare)
    requires Tiled(L, segs) && Coalesced(L) && TopOk(L, segs, s) && Run(L, q, p, e)
    ensures s.top != 0 && q != s.top && (q < s.top < e ==> s.top == End(L, p))
    ensures s.top == End(L, p) ==> e == End(L, s.top)
  {
    AdjacentContained(L, segs, p);
    if q != p { AdjacentContained(L, segs, q); }
    assert IsLimit(segs, End(L, s.top));
    if q < s.top < e { RunInside(L, q, p, e, s.top); }
  }

  lemma FreedTop(L: Layout, segs: seq<Segment>, q: int, p: int, e: int, s: Spare, s': Spare)
    requires Tiled(L, segs) && TopOk(L, segs, s) && Run(L, q, p, e) && q < e && Reassigned(L, q, p, e, s, s')
    requires s.top != 0 && q != s.top && (q < s.top < e ==> s.top == End(L, p))
    requires s.top == End(L, p) ==> e == End(L, s.top)
    ensures TopOk(Fuse(L, q, e, false), segs, s')
  {
    RunAligned(L, q, p, e);
    if s.top != End(L, p) {
      assert ChunksApart(L, q, s.top) && ChunksApart(L, p, s.top) && ChunksApart(L, End(L, p), s.top);
    }
    hide Tiled, Run;
  }

  lemma FreedDv(L: Layout, segs: seq<Segment>, q: int, p: int, e: int, s: Spare, s': Spare)
    requires Tiled(L, segs) && DvOk(L, s) && Run(L, q, p, e) && q < e && Reassigned(L, q, p, e, s, s')
    requires TopOk(L, segs, s) && s.top != 0 && q != s.top && (q < s.top < e ==> s.top == End(L, p))
    requires s.top == End(L, p) ==> e == End(L, s.top)
    ensures DvOk(Fuse(L, q, e, false), s')
  {
    RunAligned(L, q, p, e);
    if s.dv != 0 && q < s.dv < e { RunInside(L, q, p, e, s.dv); }
  }

  /** The merged chunk is out of the bins; all other free chunks are where they belong. */
  lemma FreedIndexed(L: Layout, q: int, p: int, e: int, s: Spare, s': Spare, size: map<int, nat>)
    requires Disjoint(L) && Shaped(L) && Run(L, q, p, e) && Indexed(L, size, s, {q, End(L, p)})
    requires Reassigned(L, q, p, e, s, s')
    ensures Indexed(Fuse(L, q, e, false), size, s', {q})
  {
    forall r | r in L && q < r < e ensures r == p || (r == End(L, p) && !L[r].inuse) { RunInside(L, q, p, e, r); }
    assert !L[End(L, p)].inuse ==> q < End(L, p) < e;
  }

  // ------------------------------------------------------------------------- memory

  /** Only the head of q, the foot at e and the head at e may differ. */
  ghost predicate Touched(w: Memory, w': Memory, q: int, e: int)
  { forall a :: a != HeadAt(q) && a != FootAt(e) && a != HeadAt(e) ==> Rd(w', a) == Rd(w, a) }

  lemma FreedTags(w: Memory, w': Memory, L: Layout, q: int, e: int, top: int, top': int)
    requires Tagged(w, L, top) && Disjoint(L) && Shaped(L) && q in L && q < e && e % 16 == 0
    requires Touched(w, w', q, e)
    requires Rd(w', HeadAt(q)) == HeadWord(Chunk(e - q, false, L[q].pinuse))
    requires e in L ==> Rd(w', HeadAt(e)) == HeadWord(L[e].(pinuse := false))
    requires q != top' ==> Rd(w', FootAt(e)) == e - q
    requires top' == top || (top' == q && q < top < e)
    ensures Tagged(w', Fuse(L, q, e, false), top')
  {
    FreedHeads(w, w', L, q, e);
    FuseDisjoint(L, q, e, false);
    FreedFeet(w, w', L, Fuse(L, q, e, false), q, e, top, top');
  }

  lemma FreedFeet(w: Memory, w': Memory, L: Layout, L': Layout, q: int, e: int, top: int, top': int)
    requires Feet(w, L, top) && Shaped(L) && e % 16 == 0 && Touched(w, w', q, e)
    requires q in L && q < e && L' == Fuse(L, q, e, false) && Disjoint(L')
    requires q != top' ==> Rd(w', FootAt(e)) == e - q
    requires top' == top || (top' == q && q < top < e)
    ensures Feet(w', L', top')
  {
    forall r | r in L' && !L'[r].inuse && r != top' ensures Rd(w', FootAt(End(L', r))) == L'[r].size {
      if r != q {
        assert r in L && L'[r].size == L[r].size && !L[r].inuse && r != top;
        assert ChunksApart(L', q, r);
        assert Rd(w, FootAt(End(L, r))) == L[r].size;
      }
    }
  }

  lemma FreedHeads(w: Memory, w': Memory, L: Layout, q: int, e: int)
    requires Heads(w, L) && Shaped(L) && q in L && q < e && e % 16 == 0 && Touched(w, w', q, e)
    requires Rd(w', HeadAt(q)) == HeadWord(Chunk(e - q, false, L[q].pinuse))
    requires e in L ==> Rd(w', HeadAt(e)) == HeadWord(L[e].(pinuse := false))
    ensures Heads(w', Fuse(L, q, e, false))
  {
    var L' := Fuse(L, q, e, false);
    forall r | r in L' ensures Rd(w', HeadAt(r)) == HeadWord(L'[r]) {
      if r != q && r != e { assert L'[r] == L[r] && HeadAt(r) != FootAt(e); }
    }
  }

  lemma TouchedOffBodies(w: Memory, w': Memory, L: Layout, q: int, size: map<int, nat>)
    requires Disjoint(L) && Shaped(L) && FreeIn(L, size) && q in L && q !in size && Touched(w, w', q, End(L, q))
    ensures OffBodies(w, w', size)
  {
    forall a | Rd(w', a) != Rd(w, a) ensures a >= 0 && !InBody(a, size) {
      forall r | r in size ensures !(r + 16 <= a < r + size[r]) { assert ChunksApart(L, q, r); }
    }
  }

  /** No payload word differs, nothing outside the segments and nothing past their chunks. */
  ghost predicate PayloadSafe(w: Memory, w': Memory, L: Layout, segs: seq<Segment>)
  { Spared(w, w', L, segs) && Calm(w, w', segs) }

  lemma SafeFenced(w: Memory, w': Memory, L: Layout, L': Layout, segs: seq<Segment>)
    requires Tiled(L, segs) && Fenced(w, segs) && PayloadSafe(w, w', L', segs)
    ensures Fenced(w', segs)
  {
    hide Fenced, AllContained, AllFollowed, Based, Disjoint;
    FencedStill(w, w', segs);
  }

  lemma SafeEnds(w: Memory, w': Memory, L: Layout, L': Layout, segs: seq<Segment>, s: Spare)
    requires LayoutOk(L, segs, s) && Fenced(w, segs) && PayloadSafe(w, w', L', segs)
    ensures Fenced(w', segs)
  {
    SafeFenced(w, w', L, L', segs);
  }

  /** An address up to the head of the chunk after [p, e) is in the segment. */
  lemma NearSegment(segs: seq<Segment>, p: int, e: int, a: int)
    requires SegmentsApart(segs) && Contained(segs, p, e) && p <= a <= HeadAt(e)
    ensures InSegs(segs, a)
  {
    var k: nat :| Within(segs, k, p, e);
    Bounds(segs, k);
  }

  lemma TouchedSafe(w: Memory, w': Memory, L: Layout, segs: seq<Segment>, q: int)
    requires Disjoint(L) && Shaped(L) && SegmentsApart(segs) && AllContained(L, segs)
    requires q in L && !L[q].inuse && Touched(w, w', q, End(L, q))
    requires End(L, q) !in L ==> Rd(w', HeadAt(End(L, q))) == Rd(w, HeadAt(End(L, q)))
    ensures PayloadSafe(w, w', L, segs)
  {
    var e := End(L, q);
    forall a | Rd(w', a) != Rd(w, a) ensures OfChunk(L, a) {
      if a == HeadAt(e) {
        assert e in L && e <= a < End(L, e) + 8;
      } else {
        assert q <= a < End(L, q) + 8;
      }
    }
    CalmBy(w, w', L, segs);
    assert Contained(segs, q, End(L, q));
    forall a | Rd(w', a) != Rd(w, a) ensures InSegs(segs, a) { NearSegment(segs, q, End(L, q), a); }
    forall u, a | InPayload(L, u, a) ensures Rd(w', a) == Rd(w, a) { assert ChunksApart(L, q, u); }
  }

  lemma LinkingSafe(w: Memory, w': Memory, L: Layout, segs: seq<Segment>, size: map<int, nat>)
    requires Tiled(L, segs) && FreeIn(L, size) && OnlyBodies(w, w', size)
    ensures PayloadSafe(w, w', L, segs)
  {
    forall a | Rd(w', a) != Rd(w, a) && a >= 0
      ensures InSegs(segs, a)
      ensures OfChunk(L, a)
    {
      var p :| p in size && p + 16 <= a < p + size[p];
      assert Contained(segs, p, End(L, p));
      NearSegment(segs, p, End(L, p), a);
    }
    CalmBy(w, w', L, segs);
    forall u, a | InPayload(L, u, a) ensures Rd(w', a) == Rd(w, a) { LinkingKeepsPayloads(w, w', L, size, u, a); }
  }

  /** Free chunks of a tiled layout other than top can be indexed together. */
  lemma FreeSpaced(L: Layout, segs: seq<Segment>, top: int, size: map<int, nat>)
    requires Tiled(L, segs) && MinSized(L, top) && FreeIn(L, size) && top !in size
    ensures Spaced(size)
  {
    forall p | p in size ensures p + size[p] < LIMIT {
      assert Contained(segs, p, End(L, p));
      var k: nat :| Within(segs, k, p, End(L, p));
      Bounds(segs, k);
    }
    forall p, q | p in size && q in size ensures Apart(size, p, q) { assert ChunksApart(L, p, q); }
  }

  /** set_size_and_pinuse_of_free_chunk */
  function FreeTags(w: Memory, p: int, size: nat): Memory
  { w[HeadAt(p) := HeadWord(Chunk(size, false, true))][FootAt(p + size) := size] }

  /** clear_pinuse */
  function ClearPinuse(w: Memory, p: int): Memory { var h := Rd(w, HeadAt(p)); w[HeadAt(p) := h - h % 2] }

  /** set_free_with_pinuse */
  function FreeWithPinuse(w: Memory, p: int, size: nat, next: int): Memory
  { FreeTags(ClearPinuse(w, next), p, size) }

  /** The merged chunk is tagged: its head, its foot unless it is top, and the head after it. */
  ghost predicate Retagged(w: Memory, w': Memory, L: Layout, q: int, e: int, top': int) requires q in L && q < e {
    && Touched(w, w', q, e)
    && Rd(w', HeadAt(q)) == HeadWord(Chunk(e - q, false, L[q].pinuse))
    && Rd(w', HeadAt(e)) == (if e in L then HeadWord(L[e].(pinuse := false)) else Rd(w, HeadAt(e)))
    && (q != top' ==> Rd(w', FootAt(e)) == e - q)
  }

  /** What the head word of a chunk says. */
  lemma HeadSays(w: Memory, L: Layout, top: int, p: int)
    requires Tagged(w, L, top) && Shaped(L) && p in L
    ensures ChunkSize(w, p) == L[p].size && Pinuse(w, p) == L[p].pinuse && Cinuse(w, p) == L[p].inuse
  {
    HeadFields(w, p, L[p]);
  }

  /** Tagging when the next chunk is in use. */
  lemma RetagAlone(w: Memory, L: Layout, segs: seq<Segment>, top: int, q: int, p: int, e: int)
    requires Tiled(L, segs) && Coalesced(L) && Tagged(w, L, top) && Run(L, q, p, e) && e == End(L, p) && q < e
    ensures Retagged(w, FreeWithPinuse(w, q, e - q, e), L, q, e, top)
  {
    HeadFields(w, e, L[e]);
    assert Isolated(L, q);
    FarApart(q, e);
  }

  /** Tagging when the next chunk is merged; top has no foot. */
  lemma RetagMerged(w: Memory, L: Layout, segs: seq<Segment>, top: int, q: int, p: int, e: int)
    requires Tiled(L, segs) && Coalesced(L) && Tagged(w, L, top) && Run(L, q, p, e) && e != End(L, p) && q < e
    ensures Retagged(w, FreeTags(w, q, e - q), L, q, e, top)
    ensures Retagged(w, w[HeadAt(q) := HeadWord(Chunk(e - q, false, true))], L, q, e, q)
  {
    assert Isolated(L, q) && Followed(L, segs, End(L, p));
    RunAligned(L, q, p, e);
    FarApart(q, e);
    assert e in L ==> L[e].(pinuse := false) == L[e];
    hide Tiled, Coalesced, Feet, HeadWord, Isolated, Followed;
  }

  /** The foot at one multiple of 16 is no head at another. */
  lemma FarApart(q: int, e: int)
    requires q % 16 == 0 && e % 16 == 0
    ensures FootAt(e) != HeadAt(q)
  {}

  /** The merged chunk is in place; the bins do not know it yet. */
  lemma FreedState(w: Memory, w': Memory, L: Layout, segs: seq<Segment>, q: int, p: int, e: int, s: Spare, s': Spare,
                   g: Index)
    requires LayoutOk(L, segs, s) && Run(L, q, p, e) && !IsRecord(segs, p) && Reassigned(L, q, p, e, s, s')
    requires Tagged(w, L, s.top) && q < e && Retagged(w, w', L, q, e, s'.top)
    requires Indexed(L, g.size, s, {q, End(L, p)}) && Structured(g) && Threaded(w, g)
    ensures LayoutOk(Fuse(L, q, e, false), segs, s')
    ensures Tagged(w', Fuse(L, q, e, false), s'.top)
    ensures Indexed(Fuse(L, q, e, false), g.size, s', {q}) && Threaded(w', g)
    ensures PayloadSafe(w, w', Fuse(L, q, e, false), segs)
  {
    hide Tagged, OffBodies, PayloadSafe, AllContained, AllFollowed, Based, Coalesced, MinSized, Recorded, Structured,
      Threaded;
    var L' := Fuse(L, q, e, false);
    FreedLayout(L, segs, q, p, e, s, s');
    RunContained(L, segs, q, p, e);
    FreedTags(w, w', L, q, e, s.top, s'.top);
    FreedIndexed(L, q, p, e, s, s', g.size);
    IndexFree(L', g.size, s', {q});
    TouchedOffBodies(w, w', L', q, g.size);
    OffBodiesThreaded(w, w', g);
    TouchedSafe(w, w', L', segs, q);
  }

  lemma IndexFree(L: Layout, size: map<int, nat>, s: Spare, out: set<int>)
    requires Indexed(L, size, s, out)
    ensures FreeIn(L, size)
    ensures forall q :: q in out ==> q !in size
  {}

  /** The end of the run that frees p. */
  ghost function RunEnd(L: Layout, p: int): int requires p in L && End(L, p) in L
  { if L[End(L, p)].inuse then End(L, p) else End(L, End(L, p)) }

  lemma RunFacts(L: Layout, segs: seq<Segment>, w: Memory, s: Spare, q: int, p: int, e: int)
    requires LayoutOk(L, segs, s) && Tagged(w, L, s.top) && Run(L, q, p, e)
    ensures q < e && q != s.top && q != 0
    ensures var n := End(L, p);
      && (!L[n].inuse ==> e != n && ChunkSize(w, n) == L[n].size)
      && Cinuse(w, n) == L[n].inuse
      && (n == s.top ==> !L[n].inuse && L[n].size == s.topsize)
      && (n == s.dv ==> !L[n].inuse && L[n].size == s.dvsize)
  {
    hide Coalesced, AllContained, AllFollowed, Based, Recorded, MinSized, Feet;
    RunContained(L, segs, q, p, e);
    HeadSays(w, L, s.top, End(L, p));
    RunNotTop(L, segs, q, p, e, s);
  }

  lemma RunNotTop(L: Layout, segs: seq<Segment>, q: int, p: int, e: int, s: Spare)
    requires Tiled(L, segs) && TopOk(L, segs, s) && Run(L, q, p, e)
    ensures q != s.top
  {
    if q != p { AdjacentContained(L, segs, q); }
    assert s.top in L ==> IsLimit(segs, End(L, s.top));
  }
}
