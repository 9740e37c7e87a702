/** Chunks with pages of their own: mmap_alloc and their release. */
module Direct {
  import opened Words
  import opened Bits
  import opened Sizes
  import opened Bins
  import opened Layout
  import opened LayoutFacts
  import opened Heap
  import opened Merging
  import opened Kernel
  import opened Accounts
  import opened State

  /** Writes to memory that is neither malloc_state nor a segment. */
  ghost predicate Elsewhere(w: Memory, w': Memory, segs: seq<Segment>)
  { forall a :: Rd(w', a) != Rd(w, a) ==> a >= 0 && !InSegs(segs, a) }

  lemma ElsewhereCalm(w: Memory, w': Memory, segs: seq<Segment>)
    requires SegmentsApart(segs) && Elsewhere(w, w', segs)
    ensures Calm(w, w', segs)
  {
    forall k, a | PastLimit(segs, k, a) ensures InSegs(segs, a) { Bounds(segs, k); }
  }

  lemma ElsewhereKeeps(w: Memory, w': Memory, L: Layout, segs: seq<Segment>, s: Spare, g: Index)
    requires LayoutOk(L, segs, s) && Tagged(w, L, s.top) && Indexed(L, g.size, s, {}) && Structured(g) && Threaded(w, g)
    requires Elsewhere(w, w', segs) && Fenced(w, segs)
    ensures Tagged(w', L, s.top) && Threaded(w', g) && Fenced(w', segs)
    ensures forall u, a :: InPayload(L, u, a) ==> Rd(w', a) == Rd(w, a)
  {
    hide Coalesced, AllFollowed, Based, Recorded, MinSized, Structured, Threaded, Fenced;
    ElsewhereCalm(w, w', segs);
    FencedStill(w, w', segs);
    forall p, a | p in L && p <= a <= HeadAt(End(L, p)) ensures Rd(w', a) == Rd(w, a) {
      assert Contained(segs, p, End(L, p));
      NearSegment(segs, p, End(L, p), a);
    }
    assert OffBodies(w, w', g.size) by {
      forall a | Rd(w', a) != Rd(w, a) ensures a >= 0 && !InBody(a, g.size) {
        forall p | p in g.size ensures !(p + 16 <= a < p + g.size[p]) { assert p in L; }
      }
    }
    OffBodiesThreaded(w, w', g);
  }

  /** What mmap_alloc writes into fresh pages. */
  function DirectTags(w: Memory, b: int, size: nat, offset: nat): Memory
    requires offset + MMAP_FOOT_PAD <= size
  {
    var p, psize := b + offset, size - offset - MMAP_FOOT_PAD;
    w[FootAt(p) := offset][HeadAt(p) := psize][HeadAt(p + psize) := FENCEPOST_HEAD][HeadAt(p + psize + 8) := 0]
  }

  lemma DirectPlaced(w: Memory, segs: seq<Segment>, mm: map<int, Region>, b: int, size: nat)
    requires MappedChunks(w, mm) && RegionsApart(mm, segs)
    requires 0 < b && b % 16 == 0 && size % 16 == 0 && LEAST_REGION <= size && b + size < LIMIT
    requires forall k :: 0 <= k < |segs| ==> Beside(b, size, segs[k].base, segs[k].size)
    requires forall q :: q in mm ==> Beside(b, size, mm[q].base, mm[q].size)
    ensures b !in mm && MappedChunks(DirectTags(w, b, size, 0), mm[b := Region(b, size)])
    ensures Elsewhere(w, DirectTags(w, b, size, 0), segs)
    ensures forall p, a :: InMappedPayload(mm, p, a) ==> Rd(DirectTags(w, b, size, 0), a) == Rd(w, a)
  {
    var w', mm' := DirectTags(w, b, size, 0), mm[b := Region(b, size)];
    assert b in mm ==> MappedChunk(w, b, mm[b]);
    DirectWritten(w, b, size);
    hide DirectTags;
    forall q | q in mm ensures MappedChunk(w', q, mm[q]) && Beside(b, size, mm[q].base, mm[q].size) {
      assert MappedChunk(w, q, mm[q]);
      MappedElsewhere(w, w', b, size, q, mm[q]);
    }
    forall p, a | InMappedPayload(mm, p, a) ensures Rd(w', a) == Rd(w, a) { assert MappedChunk(w, p, mm[p]); }
  }

  /** The tags are those of a directly mapped chunk, and lie in its pages. */
  lemma DirectWritten(w: Memory, b: int, size: nat)
    requires 0 < b && b % 16 == 0 && size % 16 == 0 && LEAST_REGION <= size && b + size < LIMIT
    ensures MappedChunk(DirectTags(w, b, size, 0), b, Region(b, size))
    ensures forall a :: Rd(DirectTags(w, b, size, 0), a) != Rd(w, a) ==> b <= a < b + size
  {
    assert b == 16 * (b / 16) && size == 16 * (size / 16);
  }

  lemma MappedElsewhere(w: Memory, w': Memory, b: int, size: nat, q: int, r: Region)
    requires MappedChunk(w, q, r) && Beside(b, size, r.base, r.size)
    requires forall a :: Rd(w', a) != Rd(w, a) ==> b <= a < b + size
    ensures MappedChunk(w', q, r)
  {}

  /** mmap_alloc may not ask the system: on whole pages, the request passes 2^64, or the footprint its limit. */
  ghost predicate DirectBarred(mp: Params, footprint: nat, limit: nat, nb: nat) requires mp.page > 0 {
    || nb + MMAP_PADDING + (mp.page - 1) >= LIMIT
    || (limit != 0 && footprint + AlignUp(nb + MMAP_PADDING, mp.page) > limit)
  }

  lemma DirectBarredIs(m: MState, nb: nat)
    requires m.Valid() && nb < LIMIT
    ensures var size := AlignUp((nb + MMAP_PADDING) % LIMIT, m.mp.page);
      size <= nb || !WithinLimit(m.footprint, size, m.footprintLimit) <==>
      DirectBarred(m.mp, m.footprint, m.footprintLimit, nb)
  {
    hide MState.HeapValid, BooksOk, AlignUp, WithinLimit, PowerOfTwo;
    LiveBelow(m);
    PageHalf(m.mp);
    PaddingExact(nb, MMAP_PADDING, m.mp.page);
    var size := AlignUp((nb + MMAP_PADDING) % LIMIT, m.mp.page);
    if size > nb { LimitExact(m.footprint, size, m.footprintLimit); }
  }

  lemma PageHalf(mp: Params)
    requires ParamsOk(mp)
    ensures 0 < mp.page <= HALF
  {
    hide PowerOfTwo;
    AtLeastOne(mp.granularity, mp.page);
  }

  /** mmap_alloc: fresh pages for one request; 0 if there are none to be had. */
  method MmapAlloc(m: MState, nb: nat) returns (p: int)
    requires m.Valid() && nb < LIMIT
    modifies m`word, m`mm, m`least, m`footprint, m`maxFootprint, m.os
    ensures m.Valid()
    ensures p == 0 ==>
      && m.mm == old(m.mm) && m.word == old(m.word) && m.os.mapped == old(m.os.mapped)
      && m.footprint == old(m.footprint) && m.least == old(m.least)
    ensures m.os.refusals >= old(m.os.refusals) && m.os.kept == old(m.os.kept)
    ensures p == 0 <==>
      DirectBarred(m.mp, old(m.footprint), m.footprintLimit, nb) || m.os.refusals > old(m.os.refusals)
    ensures p != 0 ==>
      && p !in old(m.mm) && p in m.mm && m.mm == old(m.mm)[p := m.mm[p]] && m.mm[p].base == p
      && p + nb + 16 < m.mm[p].base + m.mm[p].size - MMAP_FOOT_PAD
      && m.footprint == old(m.footprint) + m.mm[p].size && (m.footprintLimit != 0 ==> m.footprint <= m.footprintLimit)
      && nb + MMAP_PADDING < LIMIT && p > 0 && LeastMultiple(m.mm[p].size, nb + MMAP_PADDING, m.mp.page)
      && m.least == LeastSeen(old(m.least), p)
    ensures m.maxFootprint == Peak(old(m.maxFootprint), m.footprint)
    ensures Undisturbed(old(m.word), m.word, m.L, old(m.mm))
  {
    hide MState.HeapValid, MState.BooksValid, BooksOk, AlignUp, WithinLimit, Undisturbed, DirectBarred, LeastMultiple,
      Peak, Fresh, LeastSeen;
    DirectBarredIs(m, nb);
    SafeNow(m.word, m.L, m.mm);
    BeforeMapping(m);
    PagesFor(m.mp, nb);
    p := 0;
    var size := AlignUp((nb + MMAP_PADDING) % LIMIT, m.mp.page);
    if !WithinLimit(m.footprint, size, m.footprintLimit) { return; }
    if size > nb {
      LimitExact(m.footprint, size, m.footprintLimit);
      ghost var mapped := m.os.mapped;
      var b := AskPages(m, size);
      if b != FAIL {
        PlaceDirect(m, b, size, mapped);
        p := b;
      }
    }
  }

  /** Asks the system for whole pages. */
  method AskPages(m: MState, size: nat) returns (b: int)
    requires m.Valid() && size > 0 && size % m.mp.page == 0
    modifies m.os
    ensures m.os.kept == old(m.os.kept)
    ensures b == FAIL ==> m.Valid() && m.os.mapped == old(m.os.mapped) && m.os.refusals == old(m.os.refusals) + 1
    ensures b != FAIL ==>
      && m.HeapValid() && b > 0 && Fresh(m, old(m.os.mapped), b, size) && m.os.refusals == old(m.os.refusals)
      && m.os.mapped == old(m.os.mapped) + Bytes(b, size)
  {
    hide MState.HeapValid, BooksOk, PowerOfTwo;
    b := m.os.Mmap(size);
  }

  lemma BeforeMapping(m: MState)
    requires m.Valid()
    ensures ParamsOk(m.mp) && m.footprint < LIMIT && m.footprintLimit < LIMIT
    ensures m.maxFootprint == Peak(m.maxFootprint, m.footprint)
  {
    hide MState.HeapValid, BooksOk;
    LiveBelow(m);
  }

  lemma PagesFor(mp: Params, nb: nat)
    requires nb < LIMIT && ParamsOk(mp)
    ensures var size := AlignUp((nb + MMAP_PADDING) % LIMIT, mp.page);
      && size < LIMIT && size % mp.page == 0
      && (size > nb ==> nb + MMAP_PADDING <= size && LeastMultiple(size, nb + MMAP_PADDING, mp.page))
      && (size > nb ==> size >= LEAST_REGION)
  {
    hide PowerOfTwo, AlignUp;
    PageHalf(mp);
    PaddingExact(nb, MMAP_PADDING, mp.page);
    var size := AlignUp((nb + MMAP_PADDING) % LIMIT, mp.page);
    if size > nb { AtLeastOne(size, mp.page); }
  }

  lemma SafeNow(w: Memory, L: Layout, mm: map<int, Region>) ensures Undisturbed(w, w, L, mm) {}

  lemma LiveBelow(m: MState)
    requires m.Valid()
    ensures m.footprint < LIMIT
  {
    MappedBelow(m.os.mapped, m.segs, m.mm, m.word, LIMIT - 1);
  }

  /** The system has just mapped [b, b + size), which the books do not know yet. */
  ghost predicate Fresh(m: MState, mapped: set<int>, b: int, size: nat)
    reads m, m.os
  {
    && ParamsOk(m.mp) && m.os.page == m.mp.page
    && BooksOk(m.word, mapped, m.segs, m.mm, m.mp.page, m.least)
    && m.footprint == |mapped| && m.footprint <= m.maxFootprint && m.footprintLimit < LIMIT
    && 0 < b && size > 0 && OnPages(m.mp.page, b, size) && b + size < LIMIT
    && Granted(mapped, m.os.mapped, b, size)
  }

  /** The updates of mmap_alloc. */
  method SetDirect(m: MState, b: int, size: nat)
    requires MMAP_FOOT_PAD <= size
    modifies m`word, m`mm, m`least, m`footprint, m`maxFootprint
    ensures m.word == DirectTags(old(m.word), b, size, 0) && m.mm == old(m.mm)[b := Region(b, size)]
    ensures m.least == LeastSeen(old(m.least), b)
    ensures m.footprint == old(m.footprint) + size
    ensures m.maxFootprint == Peak(old(m.maxFootprint), m.footprint)
  {
    m.word := DirectTags(m.word, b, size, 0);
    m.mm := m.mm[b := Region(b, size)];
    if m.least == 0 || b < m.least { m.least := b; }
    m.footprint := m.footprint + size;
    if m.footprint > m.maxFootprint { m.maxFootprint := m.footprint; }
  }

  /** A chunk over the fresh pages [b, b + size). */
  method PlaceDirect(m: MState, b: int, size: nat, ghost mapped: set<int>)
    requires m.HeapValid() && Fresh(m, mapped, b, size) && LEAST_REGION <= size
    modifies m`word, m`mm, m`least, m`footprint, m`maxFootprint
    ensures m.Valid() && b !in old(m.mm) && m.mm == old(m.mm)[b := Region(b, size)]
    ensures m.footprint == old(m.footprint) + size && m.maxFootprint == Peak(old(m.maxFootprint), m.footprint)
    ensures m.least == LeastSeen(old(m.least), b)
    ensures Undisturbed(old(m.word), m.word, m.L, old(m.mm))
  {
    hide Structured, Threaded, Mapped, LayoutOk, Tagged, Indexed, BooksOk, DirectTags, Undisturbed, Granted, ParamsOk,
      OnPages, Fenced;
    PlacedDirect(m.word, m.L, m.segs, m.Spares(), m.g, m.mm, mapped, m.os.mapped, m.mp, m.least, b, size);
    SetDirect(m, b, size);
  }

  lemma PlacedDirect(w: Memory, L: Layout, segs: seq<Segment>, s: Spare, g: Index, mm: map<int, Region>,
                     mapped: set<int>, mapped': set<int>,
                     mp: Params, least: int, b: int, size: nat)
    requires LayoutOk(L, segs, s) && Tagged(w, L, s.top) && Indexed(L, g.size, s, {}) && Structured(g) && Threaded(w, g)
    requires ParamsOk(mp) && 0 < b && OnPages(mp.page, b, size) && b + size < LIMIT && LEAST_REGION <= size
    requires BooksOk(w, mapped, segs, mm, mp.page, least) && Granted(mapped, mapped', b, size) && Fenced(w, segs)
    ensures var w' := DirectTags(w, b, size, 0);
      && Tagged(w', L, s.top) && Threaded(w', g) && Fenced(w', segs) && Undisturbed(w, w', L, mm) && b !in mm
      && BooksOk(w', mapped', segs, mm[b := Region(b, size)], mp.page, if least == 0 || b < least then b else least)
      && |mapped'| == |mapped| + size
  {
    hide LayoutOk, Tagged, Indexed, Structured, Threaded, MappedChunks, RegionsApart, Accounted, Paged, Bounded,
      DirectTags, Elsewhere, Beside, Bytes, Fenced;
    FreshPages(mp, b, size);
    SegmentSizes(L, segs, s);
    RegionSizes(w, mm);
    FreshBeside(mapped, segs, mm, b, size);
    DirectPlaced(w, segs, mm, b, size);
    ElsewhereKeeps(w, DirectTags(w, b, size, 0), L, segs, s, g);
    RegionAdded(mapped, segs, mm, b, Region(b, size));
    RegionBounded(least, segs, mm, b, Region(b, size));
    RegionPaged(mp.page, segs, mm, b, Region(b, size));
    MoreBytes(mapped, b, size);
  }

  lemma FreshPages(mp: Params, b: int, size: nat)
    requires ParamsOk(mp) && b > 0 && OnPages(mp.page, b, size)
    ensures b % 16 == 0 && size % 16 == 0
  {
    DividesTrans(b, mp.page, 16);
    DividesTrans(size, mp.page, 16);
  }

  lemma SegmentSizes(L: Layout, segs: seq<Segment>, s: Spare)
    requires LayoutOk(L, segs, s)
    ensures forall k :: 0 <= k < |segs| ==> segs[k].size > 0
  {
    forall k | 0 <= k < |segs| ensures segs[k].size > 0 { Bounds(segs, k); }
  }

  lemma RegionSizes(w: Memory, mm: map<int, Region>)
    requires MappedChunks(w, mm)
    ensures forall p :: p in mm ==> mm[p].size > 0
  {
    forall p | p in mm ensures mm[p].size > 0 { assert MappedChunk(w, p, mm[p]); }
  }

  /** The pages of chunk p have gone back to the system, unless it refused them, and then nothing has changed. */
  ghost predicate Released(mm: map<int, Region>, mm': map<int, Region>, mapped: set<int>, mapped': set<int>, p: int,
                           refused: bool) {
    if refused || p !in mm then mm' == mm && mapped' == mapped
    else mm' == mm - {p} && mapped' == mapped - Bytes(mm[p].base, mm[p].size)
  }

  /** free of a directly mapped chunk: give its pages back. If the system refuses, nothing changes. */
  method ReleaseDirect(m: MState, p: int) returns (gone: bool)
    requires m.Valid() && p in m.mm
    modifies m`mm, m`footprint, m.os
    ensures m.Valid()
    ensures Released(old(m.mm), m.mm, old(m.os.mapped), m.os.mapped, p, m.os.kept > old(m.os.kept))
    ensures m.footprint == old(m.footprint) - (if gone then old(m.mm[p].size) else 0)
    ensures m.os.kept == (if gone then old(m.os.kept) else old(m.os.kept) + 1) && m.os.refusals == old(m.os.refusals)
  {
    hide MState.HeapValid, BooksOk, Bytes;
    DirectGone(m.word, m.os.mapped, m.segs, m.mm, m.mp.page, m.least, p);
    var psize, prevsize := ChunkSize(m.word, p), Rd(m.word, FootAt(p));
    var total := psize + prevsize + MMAP_FOOT_PAD;
    gone := m.os.Munmap(p - prevsize, total);
    if gone {
      m.footprint := m.footprint - total;
      m.mm := m.mm - {p};
    }
  }

  lemma DirectGone(w: Memory, mapped: set<int>, segs: seq<Segment>, mm: map<int, Region>, page: nat, least: int, p: int)
    requires BooksOk(w, mapped, segs, mm, page, least) && p in mm
    ensures p - Rd(w, FootAt(p)) == mm[p].base && ChunkSize(w, p) + Rd(w, FootAt(p)) + MMAP_FOOT_PAD == mm[p].size
    ensures Bytes(mm[p].base, mm[p].size) <= mapped && |mapped - Bytes(mm[p].base, mm[p].size)| == |mapped| - mm[p].size
    ensures BooksOk(w, mapped - Bytes(mm[p].base, mm[p].size), segs, mm - {p}, page, least)
  {
    hide MappedChunks, RegionsApart, Accounted, Paged, Bounded, Bytes, ChunkSize;
    DirectWords(w, mm, p);
    RegionGone(mapped, segs, mm, p);
    FewerBytes(mapped, mm[p].base, mm[p].size);
    RegionsFewer(w, page, least, segs, mm, p);
  }

  lemma DirectWords(w: Memory, mm: map<int, Region>, p: int)
    requires MappedChunks(w, mm) && p in mm
    ensures p - Rd(w, FootAt(p)) == mm[p].base && ChunkSize(w, p) + Rd(w, FootAt(p)) + MMAP_FOOT_PAD == mm[p].size
    ensures Rd(w, HeadAt(p)) % 4 == 0 && p > 0
  {
    assert MappedChunk(w, p, mm[p]);
    Plain(Rd(w, HeadAt(p)), mm[p].base + mm[p].size, p);
    hide MappedChunks;
  }

  lemma Plain(h: int, x: int, y: int)
    requires h == x - MMAP_FOOT_PAD - y && x % 16 == 0 && y % 16 == 0
    ensures h % 8 == 0 && h % 4 == 0
  {
    assert h == 8 * (2 * (x / 16) - 2 * (y / 16) - 4) == 4 * (4 * (x / 16) - 4 * (y / 16) - 8);
  }

  lemma RegionsFewer(w: Memory, page: nat, least: int, segs: seq<Segment>, mm: map<int, Region>, p: int)
    requires page > 0 && MappedChunks(w, mm) && Paged(page, segs, mm) && Bounded(least, segs, mm)
    ensures MappedChunks(w, mm - {p}) && Paged(page, segs, mm - {p}) && Bounded(least, segs, mm - {p})
  {
    var mm' := mm - {p};
    forall q | q in mm' ensures MappedChunk(w, q, mm'[q]) { assert MappedChunk(w, q, mm[q]); }
  }

  /** Work inside the segments leaves the books as they are. */
  lemma BooksKept(w: Memory, w': Memory, segs: seq<Segment>, L: Layout, mm: map<int, Region>)
    requires MappedChunks(w, mm) && RegionsApart(mm, segs) && PayloadSafe(w, w', L, segs)
    ensures MappedChunks(w', mm) && Undisturbed(w, w', L, mm)
  {
    LocalKeepsMapped(w, w', segs, mm);
  }
}
