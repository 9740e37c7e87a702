/** The boundary tags in memory, and the invariant that ties tags, bins, dv and top together. */
module Heap {
  import opened Words
  import opened Bins
  import opened Layout
  import opened LayoutFacts

  // ------------------------------------------------------------------- head words

  /** Size with the in-use bits of the chunk and of the one before it. */
  function HeadWord(c: Chunk): nat { c.size + (if c.inuse then 2 else 0) + (if c.pinuse then 1 else 0) }

  predicate Pinuse(w: Memory, p: int) { Rd(w, HeadAt(p)) % 2 == 1 }
  predicate Cinuse(w: Memory, p: int) { (Rd(w, HeadAt(p)) / 2) % 2 == 1 }

  lemma HeadFields(w: Memory, p: int, c: Chunk)
    requires Rd(w, HeadAt(p)) == HeadWord(c) && c.size % 16 == 0
    ensures ChunkSize(w, p) == c.size && Pinuse(w, p) == c.pinuse && Cinuse(w, p) == c.inuse
    ensures Rd(w, HeadAt(p)) % 4 == 3 <==> c.inuse && c.pinuse
  {
    HeadBits(c.size / 16, if c.inuse then 1 else 0, if c.pinuse then 1 else 0);
  }

  lemma HeadBits(k: nat, c: nat, p: nat)
    requires c <= 1 && p <= 1
    ensures var h := 16 * k + 2 * c + p;
      h % 16 == h % 8 == h % 4 == 2 * c + p && (h / 2) % 2 == c && h % 2 == p
  {
    Remainders(k, 2 * c + p);
    Halves(8 * k + c, p);
    Halves(4 * k, c);
  }

  lemma Remainders(k: nat, r: nat)
    requires r < 4
    ensures (16 * k + r) % 16 == r && (16 * k + r) % 8 == r && (16 * k + r) % 4 == r
  {}

  lemma Halves(q: nat, r: nat)
    requires r < 2
    ensures (2 * q + r) % 2 == r && (2 * q + r) / 2 == q
  {}

  // ------------------------------------------------------------------------- tags

  ghost predicate Heads(w: Memory, L: Layout)
  { forall p :: p in L ==> Rd(w, HeadAt(p)) == HeadWord(L[p]) }

  /** A free chunk repeats its size at its end; top does not. */
  ghost predicate Feet(w: Memory, L: Layout, top: int)
  { forall p :: p in L && !L[p].inuse && p != top ==> Rd(w, FootAt(End(L, p))) == L[p].size }

  ghost predicate Tagged(w: Memory, L: Layout, top: int) { Heads(w, L) && Feet(w, L, top) }

  // ------------------------------------------------------- free chunks and their index

  /** The free chunks kept outside the bins, with their sizes; an address of 0 means none. */
  datatype Spare = Spare(dv: int, dvsize: nat, top: int, topsize: nat)

  /** The index holds exactly the free chunks other than dv and top, and other than those out
      of the bins for the moment. */
  ghost predicate Indexed(L: Layout, size: map<int, nat>, s: Spare, out: set<int>) {
    && (forall p :: p in size <==> p in L && !L[p].inuse && p != s.dv && p != s.top && p !in out)
    && (forall p :: p in size ==> size[p] == L[p].size)
  }

  ghost predicate DvOk(L: Layout, s: Spare) {
    if s.dv == 0 then s.dvsize == 0
    else s.dv in L && !L[s.dv].inuse && L[s.dv].size == s.dvsize && s.dv != s.top
  }

  ghost predicate TopOk(L: Layout, segs: seq<Segment>, s: Spare) {
    if s.top == 0 then s.topsize == 0 && segs == [] && L == map[]
    else |segs| > 0 && s.top in L && !L[s.top].inuse && L[s.top].size == s.topsize && End(L, s.top) == LimitOf(segs, 0)
  }

  ghost predicate MinSized(L: Layout, top: int)
  { forall p :: p in L && p != top ==> L[p].size >= MIN_CHUNK_SIZE }

  /** Segment records live in chunks of their own. */
  ghost predicate Recorded(L: Layout, segs: seq<Segment>) {
    forall k {:trigger segs[k].rec} :: 1 <= k < |segs| ==>
      segs[k].rec in L && L[segs[k].rec].inuse && L[segs[k].rec].size == RECORD_SIZE
  }

  ghost predicate IsRecord(segs: seq<Segment>, p: int) { exists k :: 1 <= k < |segs| && p == segs[k].rec }

  ghost predicate LayoutOk(L: Layout, segs: seq<Segment>, s: Spare) {
    && Tiled(L, segs) && Coalesced(L) && MinSized(L, s.top) && Recorded(L, segs)
    && DvOk(L, s) && TopOk(L, segs, s)
  }

  /** Chunks other than top and the records have a successor. */
  lemma HasNext(L: Layout, segs: seq<Segment>, s: Spare, p: int)
    requires Tiled(L, segs) && Recorded(L, segs) && TopOk(L, segs, s)
    requires p in L && p != s.top && !IsRecord(segs, p)
    ensures End(L, p) in L && L[End(L, p)].pinuse == L[p].inuse && !IsBase(segs, End(L, p))
  {
    assert Followed(L, segs, p);
    forall k | 0 <= k < |segs| ensures End(L, p) != LimitOf(segs, k) {
      if k == 0 {
        assert ChunksApart(L, p, s.top);
      } else {
        assert segs[k].rec in L && ChunksApart(L, p, segs[k].rec);
      }
    }
  }

  lemma FreeHasNext(L: Layout, segs: seq<Segment>, s: Spare, p: int)
    requires LayoutOk(L, segs, s) && p in L && !L[p].inuse && p != s.top
    ensures End(L, p) in L
  {
    forall k | 1 <= k < |segs| ensures segs[k].rec != p { assert L[segs[k].rec].inuse; }
    HasNext(L, segs, s, p);
  }

  // ------------------------------------------------- which stores disturb which words

  /** Chunks of the index are free chunks of the layout. */
  ghost predicate FreeIn(L: Layout, size: map<int, nat>)
  { forall p :: p in size ==> p in L && !L[p].inuse && L[p].size == size[p] }

  /** Link words lie strictly inside free chunks, so linking never touches a tag. */
  lemma LinkingKeepsTags(w: Memory, w': Memory, L: Layout, top: int, size: map<int, nat>)
    requires Disjoint(L) && Shaped(L) && FreeIn(L, size) && OnlyBodies(w, w', size) && Tagged(w, L, top)
    ensures Tagged(w', L, top)
  {
    forall r | r in L ensures !InBody(HeadAt(r), size) && !InBody(FootAt(End(L, r)), size) {
      forall p | p in size ensures !(p + 16 <= HeadAt(r) < p + size[p]) && !(p + 16 <= End(L, r) < p + size[p]) {
        assert ChunksApart(L, p, r);
      }
    }
  }

  /** Words of chunks in use that their owner may write: up to the head of the next chunk. */
  ghost predicate InPayload(L: Layout, u: int, a: int)
  { u in L && L[u].inuse && u + 16 <= a < End(L, u) + 8 }

  /** Payload words of chunks in use before and after, as far as both sizes reach, are unchanged,
      and so is all memory outside the segments. */
  ghost predicate PayloadsKept(w: Memory, w': Memory, L: Layout, L': Layout, segs: seq<Segment>) {
    && (forall u, a :: InPayload(L, u, a) && InPayload(L', u, a) ==> Rd(w', a) == Rd(w, a))
    && Local(w, w', segs) && Calm(w, w', segs)
  }

  ghost predicate InSegs(segs: seq<Segment>, a: int)
  { exists k :: 0 <= k < |segs| && segs[k].base <= a < segs[k].base + segs[k].size }

  /** No payload word differs, and nothing outside the segments. */
  ghost predicate Spared(w: Memory, w': Memory, L: Layout, segs: seq<Segment>)
  { (forall u, a :: InPayload(L, u, a) ==> Rd(w', a) == Rd(w, a)) && Local(w, w', segs) }

  /** Only words of the segments and of malloc_state differ. */
  ghost predicate Local(w: Memory, w': Memory, segs: seq<Segment>)
  { forall a :: Rd(w', a) != Rd(w, a) ==> a < 0 || InSegs(segs, a) }

  // ------------------------------------------------------- what ends a segment

  const FENCEPOST_HEAD: int := 11

  /** Address a lies past the chunks of segment k. */
  ghost predicate PastLimit(segs: seq<Segment>, k: int, a: int)
  { 0 <= k < |segs| && LimitOf(segs, k) + 8 <= a < segs[k].base + segs[k].size }

  /** Past the chunks of the top segment comes a head with top's foot size, whose in-use bits are clear; past those of
      another there are fenceposts up to its end. */
  ghost predicate Ended(w: Memory, segs: seq<Segment>, k: int) requires 0 <= k < |segs| {
    if k == 0 then Rd(w, HeadAt(LimitOf(segs, 0))) == TOP_FOOT_SIZE
    else forall a :: PastLimit(segs, k, a) && (a - LimitOf(segs, k)) % 8 == 0 ==> Rd(w, a) == FENCEPOST_HEAD
  }

  ghost predicate Fenced(w: Memory, segs: seq<Segment>) { forall k :: 0 <= k < |segs| ==> Ended(w, segs, k) }

  /** Nothing past the chunks of a segment differs. */
  ghost predicate Calm(w: Memory, w': Memory, segs: seq<Segment>)
  { forall k, a :: PastLimit(segs, k, a) ==> Rd(w', a) == Rd(w, a) }

  lemma FencedStill(w: Memory, w': Memory, segs: seq<Segment>)
    requires SegmentsApart(segs) && Fenced(w, segs) && Calm(w, w', segs)
    ensures Fenced(w', segs)
  {
    forall k | 0 <= k < |segs| ensures Ended(w', segs, k) {
      assert Ended(w, segs, k);
      Bounds(segs, k);
      assert PastLimit(segs, k, HeadAt(LimitOf(segs, k)));
    }
  }

  /** Words of a chunk, up to the head of the next, are not past any limit. */
  lemma Slack(L: Layout, segs: seq<Segment>, k: int, a: int, r: int)
    requires SegmentsApart(segs) && AllContained(L, segs) && PastLimit(segs, k, a) && r in L
    ensures a < r || End(L, r) + 8 <= a
  {
    assert Contained(segs, r, End(L, r));
    var j: nat :| Within(segs, j, r, End(L, r));
    Bounds(segs, j);
    Bounds(segs, k);
    assert SegApart(segs, j, k);
  }

  /** A change to words of chunks only leaves the ends of the segments alone. */
  lemma CalmBy(w: Memory, w': Memory, L: Layout, segs: seq<Segment>)
    requires SegmentsApart(segs) && AllContained(L, segs)
    requires forall a :: Rd(w', a) != Rd(w, a) ==> a < 0 || OfChunk(L, a)
    ensures Calm(w, w', segs)
  {
    forall k, a | PastLimit(segs, k, a) ensures Rd(w', a) == Rd(w, a) {
      if Rd(w', a) != Rd(w, a) {
        Bounds(segs, k);
        var r :| r in L && r <= a < End(L, r) + 8;
        Slack(L, segs, k, a, r);
      }
    }
  }

  ghost predicate OfChunk(L: Layout, a: int) { exists r :: r in L && r <= a < End(L, r) + 8 }

  lemma LinkingKeepsPayloads(w: Memory, w': Memory, L: Layout, size: map<int, nat>, u: int, a: int)
    requires Disjoint(L) && FreeIn(L, size) && OnlyBodies(w, w', size) && InPayload(L, u, a) && u > 0
    ensures Rd(w', a) == Rd(w, a)
  {
    forall p | p in size ensures !(p + 16 <= a < p + size[p]) { assert ChunksApart(L, p, u); }
  }

  /** No link word of the index differs. */
  ghost predicate OffBodies(w: Memory, w': Memory, size: map<int, nat>)
  { forall a :: Rd(w', a) != Rd(w, a) ==> a >= 0 && !InBody(a, size) }

  /** Stores outside the bodies of binned chunks do not disturb the index. */
  lemma OffBodiesThreaded(w: Memory, w': Memory, g: Index)
    requires Structured(g) && Threaded(w, g) && OffBodies(w, w', g.size)
    ensures Threaded(w', g)
  {
    OffBodiesWords(w, w', g.size);
    RingedFrame(w, w', g);
    NodesInjective(g);
    LinkedFrame(w, w', Nodes(g.rings), g.size);
    TreeChunksRoomy(g);
  }

  lemma OffBodiesWords(w: Memory, w': Memory, size: map<int, nat>)
    requires Spaced(size) && OffBodies(w, w', size)
    ensures SameRingWords(w, w', size) && SameTreeWords(w, w', size)
  {
    forall p | Linkable(size, p) ensures Fd(w', p) == Fd(w, p) && Bk(w', p) == Bk(w, p) {
      if p in size { assert InBody(FdAt(p), size) && InBody(BkAt(p), size); }
    }
    forall p | Roomy(size, p) ensures SameTree(w, w', p) {
      assert InBody(ChildAt(p, false), size) && InBody(ChildAt(p, true), size);
      assert InBody(ParentAt(p), size) && InBody(IndexAt(p), size);
    }
  }

  lemma IndexSized(w: Memory, L: Layout, size: map<int, nat>)
    requires Heads(w, L) && Shaped(L) && FreeIn(L, size)
    ensures Sized(w, size)
  {
    forall p | p in size ensures ChunkSize(w, p) == size[p] { HeadFields(w, p, L[p]); }
  }

  /** Where pinuse is clear, prev_foot leads to the free chunk before. */
  lemma PrevFree(w: Memory, L: Layout, segs: seq<Segment>, s: Spare, p: int)
    requires Tiled(L, segs) && Tagged(w, L, s.top) && TopOk(L, segs, s) && p in L && !L[p].pinuse
    ensures p - Rd(w, FootAt(p)) in L
    ensures var q := p - Rd(w, FootAt(p)); q < p && !L[q].inuse && End(L, q) == p && q != s.top
  {
    var q := Predecessor(L, segs, p);
    if q == s.top {
      assert Contained(segs, p, End(L, p));
      var k: nat :| Within(segs, k, p, End(L, p));
      Bounds(segs, k);
      NotLimit(segs, k, p);
      assert IsLimit(segs, p);
      assert false;
    }
  }
}
