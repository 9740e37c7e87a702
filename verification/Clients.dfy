/** What callers may do: write the memory they hold. */
module Clients {
  import opened Words
  import opened Bins
  import opened Layout
  import opened LayoutFacts
  import opened Heap
  import opened Merging
  import opened Accounts
  import opened State

  /** Only payload words differ. */
  ghost predicate ClientWrote(w: Memory, w': Memory, L: Layout, mm: map<int, Region>)
  { forall a :: Rd(w', a) != Rd(w, a) ==> Owned(L, mm, a) }

  /** Some caller holds this word. */
  ghost predicate Owned(L: Layout, mm: map<int, Region>, a: int)
  { (exists u :: InPayload(L, u, a)) || exists p :: InMappedPayload(mm, p, a) }

  lemma OwnedPlace(L: Layout, segs: seq<Segment>, w: Memory, mm: map<int, Region>, a: int, q: int)
    requires Tiled(L, segs) && MappedChunks(w, mm) && RegionsApart(mm, segs) && Owned(L, mm, a) && q in L
    ensures a > 0 && a != HeadAt(q) && (!L[q].inuse ==> !(q + 16 <= a <= End(L, q)))
  {
    assert Contained(segs, q, End(L, q));
    if u :| InPayload(L, u, a) {
      assert ChunksApart(L, u, q);
    } else {
      var p :| InMappedPayload(mm, p, a);
      assert MappedChunk(w, p, mm[p]);
      var k: nat :| Within(segs, k, q, End(L, q));
      Bounds(segs, k);
      assert Beside(mm[p].base, mm[p].size, segs[k].base, segs[k].size);
    }
  }

  lemma OwnedDirect(L: Layout, segs: seq<Segment>, w: Memory, mm: map<int, Region>, a: int, q: int)
    requires Tiled(L, segs) && MappedChunks(w, mm) && RegionsApart(mm, segs) && Owned(L, mm, a) && q in mm
    ensures a != FootAt(q) && a != HeadAt(q)
    ensures !(mm[q].base + mm[q].size - MMAP_FOOT_PAD <= a < mm[q].base + mm[q].size)
  {
    assert MappedChunk(w, q, mm[q]);
    if u :| InPayload(L, u, a) {
      assert Contained(segs, u, End(L, u));
      NearSegment(segs, u, End(L, u), a);
      var k :| 0 <= k < |segs| && segs[k].base <= a < segs[k].base + segs[k].size;
      assert Beside(mm[q].base, mm[q].size, segs[k].base, segs[k].size);
    } else {
      var p :| InMappedPayload(mm, p, a);
      assert MappedChunk(w, p, mm[p]);
      assert p != q ==> Beside(mm[p].base, mm[p].size, mm[q].base, mm[q].size);
    }
  }

  lemma OwnedNotPast(L: Layout, segs: seq<Segment>, w: Memory, mm: map<int, Region>, a: int, k: nat)
    requires Tiled(L, segs) && MappedChunks(w, mm) && RegionsApart(mm, segs) && Owned(L, mm, a) && k < |segs|
    ensures !PastLimit(segs, k, a)
  {
    Bounds(segs, k);
    if u :| InPayload(L, u, a) {
      if PastLimit(segs, k, a) { Slack(L, segs, k, a, u); }
    } else {
      var p :| InMappedPayload(mm, p, a);
      assert MappedChunk(w, p, mm[p]);
      assert Beside(mm[p].base, mm[p].size, segs[k].base, segs[k].size);
    }
  }

  lemma OwnedCalm(w: Memory, w': Memory, L: Layout, segs: seq<Segment>, mm: map<int, Region>)
    requires Tiled(L, segs) && MappedChunks(w, mm) && RegionsApart(mm, segs) && ClientWrote(w, w', L, mm)
    ensures Calm(w, w', segs)
  {
    forall k, a | PastLimit(segs, k, a) ensures Rd(w', a) == Rd(w, a) {
      if Rd(w', a) != Rd(w, a) { OwnedNotPast(L, segs, w, mm, a, k); }
    }
  }

  /** Whatever callers write into memory they hold, the heap stays in order. */
  lemma ClientsHarmless(w: Memory, w': Memory, mapped: set<int>, L: Layout, segs: seq<Segment>, s: Spare, g: Index,
                        mm: map<int, Region>, page: nat, least: int)
    requires LayoutOk(L, segs, s) && Tagged(w, L, s.top) && Indexed(L, g.size, s, {}) && Structured(g) && Threaded(w, g)
    requires BooksOk(w, mapped, segs, mm, page, least) && ClientWrote(w, w', L, mm) && Fenced(w, segs)
    ensures Tagged(w', L, s.top) && Threaded(w', g) && BooksOk(w', mapped, segs, mm, page, least) && Fenced(w', segs)
  {
    hide Structured, Threaded, Coalesced, MinSized, Recorded, AllContained, AllFollowed, Based, SegmentsApart, Disjoint,
      RegionsApart, Accounted, Paged, Bounded, Owned, Fenced, Calm;
    OwnedCalm(w, w', L, segs, mm);
    FencedStill(w, w', segs);
    forall a, q | Rd(w', a) != Rd(w, a) && q in L
      ensures a > 0 && a != HeadAt(q) && (!L[q].inuse ==> !(q + 16 <= a <= End(L, q)))
    {
      OwnedPlace(L, segs, w, mm, a, q);
    }
    OwnedKeepsTags(w, w', L, s.top, g.size);
    OwnedOffBodies(w, w', L, segs, mm, s, g.size);
    OffBodiesThreaded(w, w', g);
    forall q | q in mm ensures MappedChunk(w', q, mm[q]) {
      assert MappedChunk(w, q, mm[q]);
      forall a | Rd(w', a) != Rd(w, a)
        ensures a != FootAt(q) && a != HeadAt(q)
        ensures !(mm[q].base + mm[q].size - MMAP_FOOT_PAD <= a < mm[q].base + mm[q].size)
      {
        OwnedDirect(L, segs, w, mm, a, q);
      }
    }
  }

  lemma OwnedKeepsTags(w: Memory, w': Memory, L: Layout, top: int, size: map<int, nat>)
    requires Shaped(L) && Tagged(w, L, top)
    requires forall a, q :: Rd(w', a) != Rd(w, a) && q in L ==>
      a != HeadAt(q) && (!L[q].inuse ==> !(q + 16 <= a <= End(L, q)))
    ensures Tagged(w', L, top)
  {}

  lemma OwnedOffBodies(w: Memory, w': Memory, L: Layout, segs: seq<Segment>, mm: map<int, Region>, s: Spare,
                       size: map<int, nat>)
    requires Indexed(L, size, s, {}) && ClientWrote(w, w', L, mm)
    requires Tiled(L, segs) && MappedChunks(w, mm) && RegionsApart(mm, segs)
    ensures OffBodies(w, w', size)
  {
    forall a | Rd(w', a) != Rd(w, a) ensures a >= 0 { OwnedPositive(L, segs, w, mm, a); }
    forall a | Rd(w', a) != Rd(w, a) ensures !InBody(a, size) {
      forall p | p in size ensures !(p + 16 <= a < p + size[p]) { OwnedPlace(L, segs, w, mm, a, p); }
    }
  }

  lemma OwnedPositive(L: Layout, segs: seq<Segment>, w: Memory, mm: map<int, Region>, a: int)
    requires Tiled(L, segs) && MappedChunks(w, mm) && Owned(L, mm, a)
    ensures a > 0
  {
    if u :| InPayload(L, u, a) {
    } else {
      var p :| InMappedPayload(mm, p, a);
      assert MappedChunk(w, p, mm[p]);
    }
  }

  /** No two callers hold the same word, although a payload runs into the next chunk's first word. */
  lemma PayloadsDisjoint(L: Layout, segs: seq<Segment>, w: Memory, mm: map<int, Region>, a: int)
    requires Tiled(L, segs) && MappedChunks(w, mm) && RegionsApart(mm, segs)
    ensures forall u, v :: InPayload(L, u, a) && InPayload(L, v, a) ==> u == v
    ensures forall p, q :: InMappedPayload(mm, p, a) && InMappedPayload(mm, q, a) ==> p == q
    ensures forall u, p :: InPayload(L, u, a) ==> !InMappedPayload(mm, p, a)
  {
    forall u, v | InPayload(L, u, a) && InPayload(L, v, a) ensures u == v { assert ChunksApart(L, u, v); }
    forall p, q | InMappedPayload(mm, p, a) && InMappedPayload(mm, q, a) ensures p == q {
      assert MappedChunk(w, p, mm[p]) && MappedChunk(w, q, mm[q]);
    }
    forall u, p | InPayload(L, u, a) ensures !InMappedPayload(mm, p, a) {
      assert Contained(segs, u, End(L, u));
      NearSegment(segs, u, End(L, u), a);
      var k :| 0 <= k < |segs| && segs[k].base <= a < segs[k].base + segs[k].size;
      assert p in mm ==> MappedChunk(w, p, mm[p]) && Beside(mm[p].base, mm[p].size, segs[k].base, segs[k].size);
    }
  }

  /** memcpy of whole words between places that do not overlap. */
  method CopyWords(m: MState, dst: int, src: int, count: nat)
    requires dst + 8 * count <= src || src + 8 * count <= dst
    modifies m`word
    ensures forall i :: 0 <= i < count ==> Rd(m.word, dst + 8 * i) == Rd(old(m.word), src + 8 * i)
    ensures forall a :: Rd(m.word, a) != Rd(old(m.word), a) ==> dst <= a < dst + 8 * count
  {
    for i := 0 to count
      invariant forall j :: 0 <= j < i ==> Rd(m.word, dst + 8 * j) == Rd(old(m.word), src + 8 * j)
      invariant forall a :: Rd(m.word, a) != Rd(old(m.word), a) ==> dst <= a < dst + 8 * i
    {
      m.word := m.word[dst + 8 * i := Rd(m.word, src + 8 * i)];
    }
  }
}
