/** Cutting a chunk in use in two, and joining two. */
module Splitting {
  import opened Words
  import opened Bins
  import opened Layout
  import opened LayoutFacts
  import opened Heap
  import opened Merging
  import opened Carving

  /** Chunk p, in use and no segment record, can be cut after n bytes. */
  ghost predicate Splittable(L: Layout, segs: seq<Segment>, p: int, n: nat) {
    && p in L && L[p].inuse && !IsRecord(segs, p) && n % 16 == 0 && MIN_CHUNK_SIZE <= n
    && n + MIN_CHUNK_SIZE <= L[p].size
  }

  lemma SplitLayout(L: Layout, segs: seq<Segment>, s: Spare, p: int, n: nat)
    requires LayoutOk(L, segs, s) && Splittable(L, segs, p, n)
    ensures LayoutOk(Split(L, p, n), segs, s) && p + n !in L && !IsRecord(segs, p + n)
    ensures Used(Split(L, p, n)) == Used(L)[p := n][p + n := L[p].size - n]
  {
    hide AllContained, Based, AllFollowed, SegmentsApart;
    Inside(L, p, n);
    SplitTiled(L, segs, p, n);
    SplitCoalesced(L, p, n);
    forall k | 1 <= k < |segs| ensures segs[k].rec in Split(L, p, n) && Split(L, p, n)[segs[k].rec] == L[segs[k].rec] {
      assert IsRecord(segs, segs[k].rec) && segs[k].rec in L;
    }
  }

  lemma SplitCoalesced(L: Layout, p: int, n: nat)
    requires Disjoint(L) && Shaped(L) && Coalesced(L) && p in L && L[p].inuse && 0 < n < L[p].size
    ensures Coalesced(Split(L, p, n))
  {
    Inside(L, p, n);
    forall q | q in Split(L, p, n) ensures Isolated(Split(L, p, n), q) {
      if q in L { assert Isolated(L, q) && ChunksApart(L, p, q); }
    }
  }

  /** The heads of both parts; pinuse of the first is as before. */
  function SplitTags(w: Memory, p: int, n: nat, size: nat, pinuse: bool): Memory
    requires n <= size
  { w[HeadAt(p) := HeadWord(Chunk(n, true, pinuse))][HeadAt(p + n) := HeadWord(Chunk(size - n, true, true))] }

  lemma SplitTagged(w: Memory, L: Layout, top: int, p: int, n: nat)
    requires Disjoint(L) && Shaped(L) && Tagged(w, L, top) && p in L && L[p].inuse && 0 < n < L[p].size && n % 16 == 0
    requires top in L ==> !L[top].inuse
    ensures Tagged(SplitTags(w, p, n, L[p].size, L[p].pinuse), Split(L, p, n), top)
  {
    Inside(L, p, n);
    var w', L' := SplitTags(w, p, n, L[p].size, L[p].pinuse), Split(L, p, n);
    assert Heads(w', L');
    Multiples16(p, n);
    forall q | q in L' && !L'[q].inuse && q != top ensures Rd(w', FootAt(End(L', q))) == L'[q].size {
      assert q in L && End(L', q) == End(L, q);
      Multiples16(q, L[q].size);
      FarApart(p, End(L, q));
      FarApart(p + n, End(L, q));
    }
  }

  /** Payload words up to the cut are untouched: those of every chunk in use after it. */
  lemma SplitSafe(w: Memory, L: Layout, segs: seq<Segment>, p: int, n: nat, size: map<int, nat>)
    requires Tiled(L, segs) && p in L && L[p].inuse && 0 < n < L[p].size && FreeIn(L, size)
    ensures PayloadSafe(w, SplitTags(w, p, n, L[p].size, L[p].pinuse), Split(L, p, n), segs)
    ensures OffBodies(w, SplitTags(w, p, n, L[p].size, L[p].pinuse), size)
  {
    Inside(L, p, n);
    var w', L' := SplitTags(w, p, n, L[p].size, L[p].pinuse), Split(L, p, n);
    assert Contained(segs, p, End(L, p));
    NearSegment(segs, p, End(L, p), HeadAt(p));
    NearSegment(segs, p, End(L, p), HeadAt(p + n));
    assert OfChunk(L, HeadAt(p)) && OfChunk(L, HeadAt(p + n));
    CalmBy(w, w', L, segs);
    forall u, a | InPayload(L', u, a) ensures Rd(w', a) == Rd(w, a) {
      if u in L { assert ChunksApart(L, p, u); }
    }
    forall a | Rd(w', a) != Rd(w, a) ensures a >= 0 && !InBody(a, size) {
      forall r | r in size ensures !(r + 16 <= a < r + size[r]) { assert ChunksApart(L, p, r); }
    }
  }

  lemma SplitState(w: Memory, L: Layout, segs: seq<Segment>, s: Spare, p: int, n: nat, g: Index)
    requires LayoutOk(L, segs, s) && Tagged(w, L, s.top) && Indexed(L, g.size, s, {}) && Structured(g) && Threaded(w, g)
    requires Splittable(L, segs, p, n)
    ensures LayoutOk(Split(L, p, n), segs, s) && p + n !in L && !IsRecord(segs, p + n)
    ensures Used(Split(L, p, n)) == Used(L)[p := n][p + n := L[p].size - n]
    ensures Indexed(Split(L, p, n), g.size, s, {})
    ensures var w' := SplitTags(w, p, n, L[p].size, L[p].pinuse);
      Tagged(w', Split(L, p, n), s.top) && Threaded(w', g) && PayloadSafe(w, w', Split(L, p, n), segs)
  {
    hide AllContained, Based, AllFollowed, SegmentsApart, Structured, Threaded, PayloadSafe, OffBodies, Tagged,
      Coalesced, Recorded, MinSized;
    SplitLayout(L, segs, s, p, n);
    SplitTagged(w, L, s.top, p, n);
    IndexFree(L, g.size, s, {});
    SplitSafe(w, L, segs, p, n, g.size);
    OffBodiesThreaded(w, SplitTags(w, p, n, L[p].size, L[p].pinuse), g);
  }
}
