/** The tags written when segments grow, shrink, come and go. */
module Extending {
  import opened Words
  import opened Bits
  import opened Bins
  import opened Layout
  import opened LayoutFacts
  import opened Heap
  import opened Merging
  import opened Regions

  /** init_top */
  function TopTags(w: Memory, p: int, size: nat): Memory
  { w[HeadAt(p) := HeadWord(Chunk(size, false, true))][HeadAt(p + size) := TOP_FOOT_SIZE] }

  lemma ResizedTags(w: Memory, L: Layout, segs: seq<Segment>, top: int, size: nat)
    requires Tiled(L, segs) && Coalesced(L) && |segs| > 0 && top in L && !L[top].inuse && L[top].size == size
    requires top + size == LimitOf(segs, 0)
    requires TaggedBut(w, L, top)
    ensures Tagged(TopTags(w, top, size), L, top)
  {
    var w' := TopTags(w, top, size);
    assert Isolated(L, top);
    assert segs[0] in segs;
    forall p | p in L ensures HeadAt(p) != HeadAt(top + size) { Slack(L, segs, 0, HeadAt(top + size), p); }
    hide Tiled, Coalesced, LimitOf, Isolated;
    assert Heads(w', L);
    assert Feet(w', L, top);
  }

  /** All tags but those of chunk x. */
  ghost predicate TaggedBut(w: Memory, L: Layout, x: int) {
    && Shaped(L)
    && (forall p :: p in L && p != x ==> Rd(w, HeadAt(p)) == HeadWord(L[p]))
    && (forall p :: p in L && p != x && !L[p].inuse ==> Rd(w, FootAt(End(L, p))) == L[p].size)
  }

  lemma TopTagsSafe(w: Memory, L: Layout, segs: seq<Segment>, top: int, size: nat, map': map<int, nat>)
    requires Tiled(L, segs) && |segs| > 0 && top in L && !L[top].inuse && L[top].size == size
    requires top + size == LimitOf(segs, 0)
    requires FreeIn(L, map') && top !in map'
    ensures Spared(w, TopTags(w, top, size), L, segs) && OffBodies(w, TopTags(w, top, size), map')
  {
    var w', f := TopTags(w, top, size), HeadAt(top + size);
    Bounds(segs, 0);
    assert segs[0] in segs;
    TopWithin(L, segs, top);
    assert InSegs(segs, HeadAt(top)) && InSegs(segs, f);
    forall u, a | InPayload(L, u, a) ensures Rd(w', a) == Rd(w, a) {
      Slack(L, segs, 0, f, u);
      assert ChunksApart(L, top, u);
    }
    forall a | Rd(w', a) != Rd(w, a) ensures a >= 0 && !InBody(a, map') {
      forall r | r in map' ensures !(r + 16 <= a < r + map'[r]) {
        Slack(L, segs, 0, f, r);
        assert ChunksApart(L, top, r);
      }
    }
  }

  /** init_top after the end of the top segment has moved. */
  lemma ResizedState(w: Memory, L: Layout, segs: seq<Segment>, segs': seq<Segment>, s: Spare, size: nat, g: Index)
    requires LayoutOk(L, segs, s) && s.top != 0 && SegmentsApart(segs') && |segs'| == |segs|
    requires segs' == Resized(segs, segs'[0].size)
    requires size > 0 && size % 16 == 0 && s.top + size == LimitOf(segs', 0) && Fenced(w, segs)
    requires Tagged(w, L, s.top) && Indexed(L, g.size, s, {}) && Structured(g) && Threaded(w, g)
    ensures LayoutOk(WithTop(L, s.top, size), segs', s.(topsize := size)) && Used(WithTop(L, s.top, size)) == Used(L)
    ensures Tagged(TopTags(w, s.top, size), WithTop(L, s.top, size), s.top)
    ensures Indexed(WithTop(L, s.top, size), g.size, s.(topsize := size), {}) && Threaded(TopTags(w, s.top, size), g)
    ensures Spared(w, TopTags(w, s.top, size), WithTop(L, s.top, size), segs')
    ensures Fenced(TopTags(w, s.top, size), segs')
  {
    hide AllContained, AllFollowed, Based, Disjoint, SegmentsApart, Structured, Threaded, Spared, OffBodies, Fenced,
      MinSized, Recorded;
    var L' := WithTop(L, s.top, size);
    ResizedLayout(L, segs, segs', s, size);
    assert TaggedBut(w, L', s.top);
    ResizedTags(w, L', segs', s.top, size);
    IndexFree(L', g.size, s.(topsize := size), {});
    TopTagsSafe(w, L', segs', s.top, size, g.size);
    OffBodiesThreaded(w, TopTags(w, s.top, size), g);
    TopWithin(L', segs', s.top);
    ResizedFenced(w, segs, segs', s.top, size);
  }

  lemma ResizedFenced(w: Memory, segs: seq<Segment>, segs': seq<Segment>, top: int, size: nat)
    requires Fenced(w, segs) && |segs'| == |segs| > 0 && segs' == Resized(segs, segs'[0].size) && SegmentsApart(segs')
    requires segs'[0].base <= top && size > 0 && top + size == LimitOf(segs', 0)
    ensures Fenced(TopTags(w, top, size), segs')
  {
    var w' := TopTags(w, top, size);
    Bounds(segs', 0);
    forall k | 0 <= k < |segs'| ensures Ended(w', segs', k) {
      if k > 0 {
        assert Ended(w, segs, k) && segs'[k] == segs[k] && SegApart(segs', 0, k);
        Bounds(segs', k);
        forall a | PastLimit(segs', k, a) && (a - LimitOf(segs', k)) % 8 == 0 ensures Rd(w', a) == FENCEPOST_HEAD {
          assert PastLimit(segs, k, a);
        }
      }
    }
  }

  // ------------------------------------------------------------- a new segment

  /** The words add_segment writes: the new top's head and foot, the record's head, the fenceposts
      after it, and the tags of what is left of the old top. */
  ghost predicate AddWrites(s: Spare, b: int, n: nat, end: int, a: int) {
    var r := RecordAt(s);
    || a == HeadAt(b) || a == HeadAt(b + n) || a == HeadAt(r) || r + RECORD_SIZE + 8 <= a < end
    || (s.topsize >= MIN_CHUNK_SIZE && (a == FootAt(r) || a == HeadAt(s.top)))
  }

  /** Fenceposts from the head at e on, up to the end. */
  ghost predicate Posted(w: Memory, e: int, end: int)
  { forall a :: e + 8 <= a < end && (a - e) % 8 == 0 ==> Rd(w, a) == FENCEPOST_HEAD }

  ghost predicate AddTagged(w: Memory, w': Memory, s: Spare, b: int, n: nat, end: int) {
    var r := RecordAt(s);
    && Rd(w', HeadAt(b)) == HeadWord(Chunk(n, false, true)) && Rd(w', HeadAt(b + n)) == TOP_FOOT_SIZE
    && Posted(w', r + RECORD_SIZE, end)
    && Rd(w', HeadAt(r)) == HeadWord(Chunk(RECORD_SIZE, true, s.topsize < MIN_CHUNK_SIZE))
    && (s.topsize >= MIN_CHUNK_SIZE ==>
          Rd(w', FootAt(r)) == s.topsize && Rd(w', HeadAt(s.top)) == HeadWord(Chunk(s.topsize, false, true)))
    && (forall a :: Rd(w', a) != Rd(w, a) ==> AddWrites(s, b, n, end, a))
  }

  /** They are no words of any other chunk. */
  lemma AddedOff(L: Layout, segs: seq<Segment>, s: Spare, b: int, n: nat, p: int, a: int)
    requires Tiled(L, segs) && |segs| > 1 && LimitOf(segs, 0) == b + n && LimitOf(segs, 1) == RecordAt(s) + RECORD_SIZE
    requires b in L && RecordAt(s) in L && End(L, b) == b + n && End(L, RecordAt(s)) == RecordAt(s) + RECORD_SIZE
    requires s.topsize >= MIN_CHUNK_SIZE ==> s.top in L && End(L, s.top) == RecordAt(s)
    requires p in L && p != b && p != RecordAt(s) && p != s.top && AddWrites(s, b, n, segs[1].base + segs[1].size, a)
    ensures a < p + 8 || End(L, p) + 8 <= a
  {
    var r := RecordAt(s);
    assert segs[0] in segs;
    Slack(L, segs, 0, HeadAt(b + n), p);
    if r + RECORD_SIZE + 8 <= a < segs[1].base + segs[1].size { Slack(L, segs, 1, a, p); }
    assert ChunksApart(L, p, b) && ChunksApart(L, p, r);
    if s.topsize >= MIN_CHUNK_SIZE { assert ChunksApart(L, p, s.top); }
  }

  /** The layout after add_segment, with what AddedOff needs to know of it. */
  ghost predicate AddedShape(L: Layout, L': Layout, segs': seq<Segment>, s: Spare, b: int, n: nat) {
    var r := RecordAt(s);
    && Tiled(L', segs') && |segs'| > 1 && LimitOf(segs', 0) == b + n && LimitOf(segs', 1) == r + RECORD_SIZE
    && b !in L && b != r && L' == WithSegment(L, s, b, n)
    && s.top in L && !L[s.top].inuse && L[s.top].pinuse && L[s.top].size == s.topsize && (r in L ==> r == s.top)
    && (s.topsize < MIN_CHUNK_SIZE ==> r == s.top) && (s.topsize >= MIN_CHUNK_SIZE ==> r == End(L, s.top))
  }

  lemma AddedTags(w: Memory, w': Memory, L: Layout, L': Layout, segs': seq<Segment>, s: Spare, b: int, n: nat)
    requires Tagged(w, L, s.top) && AddedShape(L, L', segs', s, b, n)
    requires AddTagged(w, w', s, b, n, segs'[1].base + segs'[1].size)
    ensures Tagged(w', L', b)
  {
    hide AddedShape, AddTagged;
    AddedHeads(w, w', L, L', segs', s, b, n);
    AddedFeet(w, w', L, L', segs', s, b, n);
  }

  lemma AddedHeads(w: Memory, w': Memory, L: Layout, L': Layout, segs': seq<Segment>, s: Spare, b: int, n: nat)
    requires Tagged(w, L, s.top) && AddedShape(L, L', segs', s, b, n)
    requires AddTagged(w, w', s, b, n, segs'[1].base + segs'[1].size)
    ensures Heads(w', L')
  {
    var r := RecordAt(s);
    ShapedOnly(L', segs');
    hide Tiled, AddWrites, Posted;
    forall p | p in L' ensures Rd(w', HeadAt(p)) == HeadWord(L'[p]) {
      if p != b && p != r && p != s.top && Rd(w', HeadAt(p)) != Rd(w, HeadAt(p)) {
        AddedOff(L', segs', s, b, n, p, HeadAt(p));
      }
    }
  }

  lemma AddedFeet(w: Memory, w': Memory, L: Layout, L': Layout, segs': seq<Segment>, s: Spare, b: int, n: nat)
    requires Tagged(w, L, s.top) && AddedShape(L, L', segs', s, b, n)
    requires AddTagged(w, w', s, b, n, segs'[1].base + segs'[1].size)
    ensures Feet(w', L', b)
  {
    ShapedOnly(L', segs');
    hide Tiled, AddWrites, Posted, Heads;
    forall p | p in L' && !L'[p].inuse && p != b ensures Rd(w', FootAt(End(L', p))) == L'[p].size {
      if p != s.top && Rd(w', End(L', p)) != Rd(w, End(L', p)) { AddedOff(L', segs', s, b, n, p, End(L', p)); }
    }
  }

  lemma ShapedOnly(L: Layout, segs: seq<Segment>) requires Tiled(L, segs) ensures Shaped(L) {}

  lemma AddedSafe(w: Memory, w': Memory, L: Layout, L': Layout, segs': seq<Segment>, s: Spare, b: int, n: nat,
                  size: map<int, nat>)
    requires AddedShape(L, L', segs', s, b, n) && AddTagged(w, w', s, b, n, segs'[1].base + segs'[1].size)
    requires FreeIn(L', size) && b !in size && s.top !in size
    ensures OffBodies(w, w', size) && Spared(w, w', L, segs')
  {
    forall a | Rd(w', a) != Rd(w, a) ensures a > 0 && InSegs(segs', a) && !InBody(a, size) {
      AddWritesLocal(L', segs', s, b, n, a);
      if InBody(a, size) {
        var p :| p in size && p + 16 <= a < p + size[p];
        AddedOff(L', segs', s, b, n, p, a);
      }
    }
    forall u, a | InPayload(L, u, a) ensures Rd(w', a) == Rd(w, a) {
      if Rd(w', a) != Rd(w, a) { AddedOff(L', segs', s, b, n, u, a); }
    }
  }

  lemma AddWritesLocal(L: Layout, segs: seq<Segment>, s: Spare, b: int, n: nat, a: int)
    requires Tiled(L, segs) && |segs| > 1 && LimitOf(segs, 0) == b + n && LimitOf(segs, 1) == RecordAt(s) + RECORD_SIZE
    requires b in L && RecordAt(s) in L && End(L, b) == b + n && End(L, RecordAt(s)) == RecordAt(s) + RECORD_SIZE
    requires s.topsize >= MIN_CHUNK_SIZE ==> s.top in L && End(L, s.top) == RecordAt(s)
    requires AddWrites(s, b, n, segs[1].base + segs[1].size, a)
    ensures a > 0 && InSegs(segs, a)
  {
    var r := RecordAt(s);
    Bounds(segs, 1);
    assert Contained(segs, b, End(L, b)) && Contained(segs, r, End(L, r));
    if r + RECORD_SIZE + 8 <= a < segs[1].base + segs[1].size {
    } else if a == HeadAt(b) || a == HeadAt(b + n) {
      NearSegment(segs, b, b + n, a);
    } else if a == HeadAt(r) {
      NearSegment(segs, r, End(L, r), a);
    } else {
      assert Contained(segs, s.top, End(L, s.top));
      NearSegment(segs, s.top, r, a);
    }
  }

  lemma AddedState(w: Memory, w': Memory, L: Layout, segs: seq<Segment>, s: Spare, b: int, size: nat, g: Index)
    requires LayoutOk(L, segs, s) && s.top != 0
    requires 0 < b && TOP_FOOT_SIZE < size && b + size < LIMIT && b % 16 == 0 && size % 16 == 0
    requires forall k :: 0 <= k < |segs| ==> b + size <= segs[k].base || segs[k].base + segs[k].size <= b
    requires Tagged(w, L, s.top) && Indexed(L, g.size, s, {}) && Structured(g) && Threaded(w, g)
    requires AddTagged(w, w', s, b, size - TOP_FOOT_SIZE, segs[0].base + segs[0].size) && Fenced(w, segs)
    ensures LayoutOk(WithSegment(L, s, b, size - TOP_FOOT_SIZE), Added(segs, s, b, size), AddedSpare(s, b, size))
    ensures Used(WithSegment(L, s, b, size - TOP_FOOT_SIZE)) == Used(L)[RecordAt(s) := RECORD_SIZE]
    ensures RecordAt(s) !in Used(L)
    ensures Tagged(w', WithSegment(L, s, b, size - TOP_FOOT_SIZE), b) && Threaded(w', g)
    ensures Indexed(WithSegment(L, s, b, size - TOP_FOOT_SIZE), g.size, AddedSpare(s, b, size), {s.top})
    ensures Spared(w, w', L, Added(segs, s, b, size)) && Fenced(w', Added(segs, s, b, size))
  {
    hide AllContained, AllFollowed, Based, Disjoint, SegmentsApart, Structured, Threaded, Spared, OffBodies, Fenced,
      MinSized, Recorded;
    var n := size - TOP_FOOT_SIZE;
    var segs', L' := Added(segs, s, b, size), WithSegment(L, s, b, n);
    AddedLayout(L, segs, s, b, size);
    AddedTiled(L, segs, s, b, size);
    assert Isolated(L, s.top);
    assert AddedShape(L, L', segs', s, b, n);
    AddedTags(w, w', L, L', segs', s, b, n);
    AddedIndexed(L, L', segs', s, b, size, g.size);
    AddedSafe(w, w', L, L', segs', s, b, n, g.size);
    OffBodiesThreaded(w, w', g);
    TopWithin(L, segs, s.top);
    AddedFenced(w, w', segs, s, b, size);
  }

  lemma AddedFenced(w: Memory, w': Memory, segs: seq<Segment>, s: Spare, b: int, size: nat)
    requires |segs| > 0 && SegmentsApart(segs) && SegmentsApart(Added(segs, s, b, size)) && Fenced(w, segs)
    requires size > TOP_FOOT_SIZE && segs[0].base <= s.top && s.top + s.topsize == LimitOf(segs, 0)
    requires AddTagged(w, w', s, b, size - TOP_FOOT_SIZE, segs[0].base + segs[0].size)
    ensures Fenced(w', Added(segs, s, b, size))
  {
    var segs' := Added(segs, s, b, size);
    assert segs'[1] == segs[0].(rec := RecordAt(s));
    forall k | 0 <= k < |segs'| ensures Ended(w', segs', k) {
      if k >= 2 {
        assert segs'[k] == segs[k - 1] && Ended(w, segs, k - 1) && SegApart(segs', 0, k) && SegApart(segs', 1, k);
        Bounds(segs', k);
        forall a | PastLimit(segs', k, a) && (a - LimitOf(segs', k)) % 8 == 0 ensures Rd(w', a) == FENCEPOST_HEAD {
          assert PastLimit(segs, k - 1, a) && !AddWrites(s, b, size - TOP_FOOT_SIZE, segs[0].base + segs[0].size, a);
        }
      }
    }
  }

  lemma AddedIndexed(L: Layout, L': Layout, segs': seq<Segment>, s: Spare, b: int, size: nat, sizes: map<int, nat>)
    requires size > TOP_FOOT_SIZE && AddedShape(L, L', segs', s, b, size - TOP_FOOT_SIZE) && Indexed(L, sizes, s, {})
    requires DvOk(L, s)
    ensures Indexed(L', sizes, AddedSpare(s, b, size), {s.top}) && FreeIn(L', sizes) && b !in sizes && s.top !in sizes
  {}

  // ------------------------------------------------------------- a segment grows downward

  lemma PrependedState(w: Memory, L: Layout, segs: seq<Segment>, s: Spare, k: nat, t: nat, g: Index)
    requires LayoutOk(L, segs, s) && k < |segs| && t >= MIN_CHUNK_SIZE && t % 16 == 0
    requires SegmentsApart(Prepended(segs, k, t)) && Fenced(w, segs)
    requires Tagged(w, L, s.top) && Indexed(L, g.size, s, {}) && Structured(g) && Threaded(w, g)
    ensures segs[k].base - t !in L && Used(WithFirst(L, segs[k].base - t, t)) == Used(L)[segs[k].base - t := t]
    ensures LayoutOk(WithFirst(L, segs[k].base - t, t), Prepended(segs, k, t), s)
    ensures Indexed(WithFirst(L, segs[k].base - t, t), g.size, s, {})
    ensures var b := segs[k].base - t;
      var w' := w[HeadAt(b) := HeadWord(Chunk(t, true, true))];
      && Tagged(w', WithFirst(L, b, t), s.top) && Threaded(w', g) && PayloadSafe(w, w', L, Prepended(segs, k, t))
      && Fenced(w', Prepended(segs, k, t))
  {
    hide AllContained, AllFollowed, Based, Disjoint, SegmentsApart, Structured, Threaded, Spared, OffBodies, Fenced,
      MinSized, Recorded, Coalesced, Calm;
    var b := segs[k].base - t;
    var w' := w[HeadAt(b) := HeadWord(Chunk(t, true, true))];
    PrependedLayout(L, segs, s, k, t);
    IndexFree(L, g.size, s, {});
    PrependedSafe(w, L, segs, k, t, g.size);
    OffBodiesThreaded(w, w', g);
    PrependedFenced(w, segs, k, t);
    FencedStill(w, w', Prepended(segs, k, t));
  }

  lemma PrependedFenced(w: Memory, segs: seq<Segment>, k: nat, t: nat)
    requires Fenced(w, segs) && k < |segs|
    ensures Fenced(w, Prepended(segs, k, t))
  {
    var segs' := Prepended(segs, k, t);
    forall j | 0 <= j < |segs'| ensures Ended(w, segs', j) {
      assert Ended(w, segs, j) && LimitOf(segs', j) == LimitOf(segs, j);
      forall a ensures PastLimit(segs', j, a) <==> PastLimit(segs, j, a) {}
    }
  }

  lemma PrependedSafe(w: Memory, L: Layout, segs: seq<Segment>, k: nat, t: nat, size: map<int, nat>)
    requires Tiled(L, segs) && k < |segs| && t >= MIN_CHUNK_SIZE && SegmentsApart(Prepended(segs, k, t))
    requires FreeIn(L, size)
    ensures var b := segs[k].base - t;
      var w' := w[HeadAt(b) := HeadWord(Chunk(t, true, true))];
      PayloadSafe(w, w', L, Prepended(segs, k, t)) && OffBodies(w, w', size)
  {
    var b := segs[k].base - t;
    var w', segs' := w[HeadAt(b) := HeadWord(Chunk(t, true, true))], Prepended(segs, k, t);
    Bounds(segs, k);
    Bounds(segs', k);
    assert InSegs(segs', HeadAt(b));
    forall p | p in L ensures p >= segs[k].base || End(L, p) <= b { PrependedApart(L, segs, k, t, p); }
    forall j, a | PastLimit(segs', j, a) ensures a != HeadAt(b) {
      Bounds(segs', j);
      assert SegApart(segs', j, k);
    }
    forall a | Rd(w', a) != Rd(w, a) ensures a >= 0 && !InBody(a, size) {
      forall r | r in size ensures !(r + 16 <= a < r + size[r]) { assert r in L; }
    }
  }

  // ------------------------------------------------------------- the first segment

  lemma RingMember(g: Index, h: Home)
    requires Structured(g) && h in g.rings
    ensures g.size != map[]
  {
    assert RingHoused(g, h);
    assert g.rings[h][if h.Small? then 1 else 0] in g.home;
  }

  lemma NoRings(w: Memory, g: Index)
    requires Structured(g) && g.size == map[]
    ensures Threaded(w, g)
  {
    forall h ensures h !in g.rings {
      if h in g.rings { RingMember(g, h); }
    }
    assert g.rings == map[];
  }

  lemma FirstState(w: Memory, b: int, size: nat, g: Index)
    requires 0 < b && TOP_FOOT_SIZE < size && b + size < LIMIT && b % 16 == 0 && size % 16 == 0
    requires Structured(g) && g.size == map[]
    ensures var n := size - TOP_FOOT_SIZE; var L := map[b := Chunk(n, false, true)];
      && LayoutOk(L, [Segment(b, size, 0)], Spare(0, 0, b, n)) && Used(L) == map[]
      && Tagged(TopTags(w, b, n), L, b) && Indexed(L, g.size, Spare(0, 0, b, n), {}) && Threaded(TopTags(w, b, n), g)
      && Local(w, TopTags(w, b, n), [Segment(b, size, 0)]) && Fenced(TopTags(w, b, n), [Segment(b, size, 0)])
  {
    var n := size - TOP_FOOT_SIZE;
    var segs := [Segment(b, size, 0)];
    FirstLayout(b, size);
    NoRings(TopTags(w, b, n), g);
    assert segs[0].base == b && InSegs(segs, HeadAt(b)) && InSegs(segs, HeadAt(b + n));
  }
}
