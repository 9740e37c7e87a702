/** Memory from the system: sys_alloc with its four ways to use a grant. */
module Growing {
  import opened Words
  import opened Bits
  import opened Sizes
  import opened Bins
  import opened Layout
  import opened LayoutFacts
  import opened Heap
  import opened Merging
  import opened Regions
  import opened Splitting
  import opened Extending
  import opened Kernel
  import opened Accounts
  import opened Books
  import opened State
  import opened Freeing
  import opened Malloc
  import opened Direct

  const MAX_RELEASE_CHECK_RATE: nat := 4095

  /** The chunks that callers hold: those in use but for segment records. */
  ghost function Live(L: Layout, segs: seq<Segment>): map<int, nat>
  { map p | p in L && L[p].inuse && !IsRecord(segs, p) :: L[p].size }

  /** m.footprint grows by size, with its high-water mark. */
  method Charge(m: MState, size: nat)
    modifies m`footprint, m`maxFootprint
    ensures m.footprint == old(m.footprint) + size
    ensures m.maxFootprint == Peak(old(m.maxFootprint), m.footprint)
  {
    m.footprint := m.footprint + size;
    if m.footprint > m.maxFootprint { m.maxFootprint := m.footprint; }
  }

  /** Only words of malloc_state differ. */
  ghost predicate StateOnly(w: Memory, w': Memory) { forall a :: Rd(w', a) != Rd(w, a) ==> a < 0 }

  /** init_bins: every small bin header points at itself. */
  method InitBins(m: MState)
    modifies m`word
    ensures forall i :: 0 <= i < 32 ==> Fd(m.word, SmallBinAt(i)) == SmallBinAt(i) == Bk(m.word, SmallBinAt(i))
    ensures StateOnly(old(m.word), m.word)
  {
    for i := 0 to 32
      invariant forall j :: 0 <= j < i ==> Fd(m.word, SmallBinAt(j)) == SmallBinAt(j) == Bk(m.word, SmallBinAt(j))
      invariant StateOnly(old(m.word), m.word)
    {
      m.word := m.word[FdAt(SmallBinAt(i)) := SmallBinAt(i)][BkAt(SmallBinAt(i)) := SmallBinAt(i)];
    }
  }

  /** init_top */
  method InitTop(m: MState, p: int, psize: nat)
    modifies m`top, m`topsize, m`word, m`trimCheck
    ensures m.top == p && m.topsize == psize && m.word == TopTags(old(m.word), p, psize)
    ensures m.trimCheck == m.mp.trimThreshold
  {
    m.top := p;
    m.topsize := psize;
    m.word := TopTags(m.word, p, psize);
    m.trimCheck := m.mp.trimThreshold;
  }

  /** The updates of sys_alloc on its first grant. */
  method SetFirst(m: MState, b: int, size: nat) returns (ghost w: Memory)
    requires size >= TOP_FOOT_SIZE
    modifies m`least, m`segs, m`releaseChecks, m`word, m`top, m`topsize, m`trimCheck, m`footprint, m`maxFootprint, m`L
    ensures StateOnly(old(m.word), w) && m.word == TopTags(w, b, size - TOP_FOOT_SIZE)
    ensures m.top == b && m.topsize == size - TOP_FOOT_SIZE && m.segs == [Segment(b, size, 0)]
    ensures m.least == LeastSeen(old(m.least), b)
    ensures m.footprint == old(m.footprint) + size
    ensures m.maxFootprint == Peak(old(m.maxFootprint), m.footprint)
    ensures m.L == map[b := Chunk(size - TOP_FOOT_SIZE, false, true)]
    ensures m.trimCheck == m.mp.trimThreshold && m.releaseChecks == MAX_RELEASE_CHECK_RATE
  {
    Charge(m, size);
    if m.least == 0 || b < m.least { m.least := b; }
    m.segs := [Segment(b, size, 0)];
    m.releaseChecks := MAX_RELEASE_CHECK_RATE;
    InitBins(m);
    w := m.word;
    InitTop(m, b, size - TOP_FOOT_SIZE);
    m.L := map[b := Chunk(size - TOP_FOOT_SIZE, false, true)];
  }

  /** sys_alloc on its first grant: one segment, all of it top. */
  method InitFirst(m: MState, b: int, size: nat, ghost mapped: set<int>)
    requires m.HeapValid() && Fresh(m, mapped, b, size) && m.top == 0 && size > TOP_FOOT_SIZE
    modifies m`least, m`segs, m`releaseChecks, m`word, m`top, m`topsize, m`trimCheck, m`footprint, m`maxFootprint, m`L
    ensures m.Valid() && m.topsize == size - TOP_FOOT_SIZE && m.top != 0 && m.trimCheck == m.mp.trimThreshold
    ensures m.releaseChecks == MAX_RELEASE_CHECK_RATE && m.least == LeastSeen(old(m.least), b)
    ensures Used(m.L) == map[] && old(m.L) == map[] && m.segs == [Segment(b, size, 0)]
    ensures m.footprint == old(m.footprint) + size && m.maxFootprint == Peak(old(m.maxFootprint), m.footprint)
    ensures Undisturbed(old(m.word), m.word, old(m.L), m.mm)
  {
    hide Structured, Threaded, Mapped, LayoutOk, Tagged, Indexed, BooksOk, Granted, ParamsOk, OnPages, Undisturbed,
      StateOnly, Used, TopTags, Fenced;
    ghost var w, least := m.word, m.least;
    NoChunks(m.L, m.segs, m.Spares(), m.g.size);
    ghost var w1 := SetFirst(m, b, size);
    Initialised(w, w1, b, size, m.g, m.mm, mapped, m.os.mapped, m.mp, least);
  }

  lemma Initialised(w: Memory, w1: Memory, b: int, size: nat, g: Index, mm: map<int, Region>, mapped: set<int>,
                    mapped': set<int>,
                    mp: Params, least: int)
    requires StateOnly(w, w1) && Structured(g) && g.size == map[] && ParamsOk(mp)
    requires BooksOk(w, mapped, [], mm, mp.page, least) && Granted(mapped, mapped', b, size)
    requires OnPages(mp.page, b, size)
    requires 0 < b && size > TOP_FOOT_SIZE && b + size < LIMIT
    ensures var n := size - TOP_FOOT_SIZE;
      var L, w' := map[b := Chunk(n, false, true)], TopTags(w1, b, n);
      var segs', s' := [Segment(b, size, 0)], Spare(0, 0, b, n);
      && LayoutOk(L, segs', s') && Used(L) == map[] && Tagged(w', L, b) && Indexed(L, g.size, s', {}) && Threaded(w', g)
      && Fenced(w', segs')
      && BooksOk(w', mapped', segs', mm, mp.page, if least == 0 || b < least then b else least)
      && |mapped'| == |mapped| + size
      && Undisturbed(w, w', map[], mm)
  {
    hide LayoutOk, Structured, Threaded, Tagged, Indexed, BooksOk, Granted, StateOnly, Local, TopTags, Used, Fenced;
    FreshPages(mp, b, size);
    FirstState(w1, b, size, g);
    var n := size - TOP_FOOT_SIZE;
    LocalFrom(w, w1, TopTags(w1, b, n), [Segment(b, size, 0)]);
    FirstBooks(w, TopTags(w1, b, n), mapped, mapped', b, size, mm, mp.page, least);
    NothingDisturbed(w, TopTags(w1, b, n), mm);
  }

  lemma NoChunks(L: Layout, segs: seq<Segment>, s: Spare, size: map<int, nat>)
    requires LayoutOk(L, segs, s) && Indexed(L, size, s, {}) && s.top == 0
    ensures L == map[] && segs == [] && size == map[] && s.dv == 0 && s.dvsize == 0
  {
    assert forall p :: p !in size;
  }

  lemma LocalFrom(w: Memory, w1: Memory, w2: Memory, segs: seq<Segment>)
    requires StateOnly(w, w1) && Local(w1, w2, segs)
    ensures Local(w, w2, segs)
  {}

  lemma NothingDisturbed(w: Memory, w': Memory, mm: map<int, Region>)
    requires forall p, a :: InMappedPayload(mm, p, a) ==> Rd(w', a) == Rd(w, a)
    ensures Undisturbed(w, w', map[], mm)
  {}

  // ------------------------------------------------------------- append

  /** The updates of sys_alloc when the grant continues the top segment. */
  method SetAppended(m: MState, size: nat)
    requires |m.segs| > 0 && m.top in m.L
    modifies m`segs, m`word, m`top, m`topsize, m`trimCheck, m`footprint, m`maxFootprint, m`L
    ensures m.segs == Resized(old(m.segs), old(m.segs[0].size) + size)
    ensures m.top == old(m.top) && m.topsize == old(m.topsize) + size
    ensures m.word == TopTags(old(m.word), m.top, m.topsize)
    ensures m.footprint == old(m.footprint) + size
    ensures m.maxFootprint == Peak(old(m.maxFootprint), m.footprint)
    ensures m.L == WithTop(old(m.L), m.top, m.topsize) && m.trimCheck == m.mp.trimThreshold
  {
    Charge(m, size);
    m.segs := m.segs[0 := m.segs[0].(size := m.segs[0].size + size)];
    InitTop(m, m.top, m.topsize + size);
    m.L := WithTop(m.L, m.top, m.topsize);
  }

  /** The grant continues the top segment: top grows. */
  method AppendTop(m: MState, b: int, size: nat, ghost mapped: set<int>)
    requires m.HeapValid() && Fresh(m, mapped, b, size) && m.top != 0 && |m.segs| > 0
    requires b == m.segs[0].base + m.segs[0].size
    modifies m`segs, m`word, m`top, m`topsize, m`trimCheck, m`footprint, m`maxFootprint, m`L
    ensures m.Valid() && m.top == old(m.top) && m.topsize == old(m.topsize) + size && m.trimCheck == m.mp.trimThreshold
    ensures Used(m.L) == Used(old(m.L)) && m.segs == Resized(old(m.segs), old(m.segs[0].size) + size)
    ensures m.footprint == old(m.footprint) + size && m.maxFootprint == Peak(old(m.maxFootprint), m.footprint)
    ensures Undisturbed(old(m.word), m.word, old(m.L), m.mm)
  {
    hide Structured, Threaded, Mapped, LayoutOk, Tagged, Indexed, BooksOk, Granted, ParamsOk, OnPages, Undisturbed,
      Used, TopTags, WithTop, Fenced;
    ghost var w, L, segs, s, least := m.word, m.L, m.segs, m.Spares(), m.least;
    TopThere(L, segs, s);
    SetAppended(m, size);
    Appended(w, L, segs, s, m.g, b, size, m.mm, mapped, m.os.mapped, m.mp, least);
  }

  lemma TopThere(L: Layout, segs: seq<Segment>, s: Spare)
    requires LayoutOk(L, segs, s) && s.top != 0
    ensures s.top in L && |segs| > 0 && s.topsize > 0
  {}

  lemma Appended(w: Memory, L: Layout, segs: seq<Segment>, s: Spare, g: Index, b: int, size: nat, mm: map<int, Region>,
                 mapped: set<int>, mapped': set<int>, mp: Params, least: int)
    requires LayoutOk(L, segs, s) && s.top != 0 && |segs| > 0 && Tagged(w, L, s.top) && Indexed(L, g.size, s, {})
    requires Structured(g) && Threaded(w, g) && Fenced(w, segs)
    requires ParamsOk(mp) && BooksOk(w, mapped, segs, mm, mp.page, least) && Granted(mapped, mapped', b, size)
    requires OnPages(mp.page, b, size)
    requires 0 < b && size > 0 && b + size < LIMIT && b == segs[0].base + segs[0].size
    ensures s.top in L
    ensures var n := s.topsize + size;
      var L', w' := WithTop(L, s.top, n), TopTags(w, s.top, n);
      var segs', s' := Resized(segs, segs[0].size + size), s.(topsize := n);
      && LayoutOk(L', segs', s') && Used(L') == Used(L) && Tagged(w', L', s.top) && Indexed(L', g.size, s', {})
      && Threaded(w', g) && Fenced(w', segs')
      && BooksOk(w', mapped', segs', mm, mp.page, least) && |mapped'| == |mapped| + size && Undisturbed(w, w', L, mm)
  {
    hide LayoutOk, Structured, Threaded, Tagged, Indexed, BooksOk, Granted, Used, TopTags, WithTop, Spared,
      SegmentsApart, Undisturbed, Fenced;
    hide Widens, OnPages, ParamsOk, LimitOf, Resized;
    var n := s.topsize + size;
    var segs' := Resized(segs, segs[0].size + size);
    AppendedRoom(w, L, segs, s, b, size, mm, mapped, mapped', mp, least);
    ResizedState(w, L, segs, segs', s, n, g);
    SafeLocal(w, TopTags(w, s.top, n), L, WithTop(L, s.top, n), segs');
    WidenedBooks(w, TopTags(w, s.top, n), mapped, mapped', segs, 0, segs'[0], b, size, mm, mp.page, least);
    UndisturbedBy(w, TopTags(w, s.top, n), L, WithTop(L, s.top, n), segs', mm);
  }

  lemma AppendedRoom(w: Memory, L: Layout, segs: seq<Segment>, s: Spare, b: int, size: nat, mm: map<int, Region>,
                     mapped: set<int>, mapped': set<int>, mp: Params, least: int)
    requires LayoutOk(L, segs, s) && s.top != 0 && |segs| > 0
    requires ParamsOk(mp) && BooksOk(w, mapped, segs, mm, mp.page, least) && Granted(mapped, mapped', b, size)
    requires OnPages(mp.page, b, size)
    requires 0 < b && size > 0 && b + size < LIMIT && b == segs[0].base + segs[0].size
    ensures s.top in L && SegmentsApart(segs) && least <= b
    ensures var n := s.topsize + size;
      var segs' := Resized(segs, segs[0].size + size);
      && SegmentsApart(segs') && |segs'| == |segs| && segs' == Resized(segs, segs'[0].size)
      && segs' == segs[0 := segs'[0]]
      && Widens(segs, 0, segs'[0], b, size) && s.top + n == LimitOf(segs', 0) && n > 0 && n % 16 == 0
  {
    hide Coalesced, AllContained, AllFollowed, Based, Disjoint, MinSized, Recorded, BooksOk, Granted, ParamsOk, OnPages,
      Bytes, Beside;
    hide SegmentsApart;
    var segs' := Resized(segs, segs[0].size + size);
    FreshPages(mp, b, size);
    FreshRoom(w, mapped, mapped', segs, mm, mp.page, least, b, size);
    LeastStays(w, mapped, segs, mm, mp.page, least, b);
    Bounds(segs, 0);
    WidenedSegments(segs, 0, segs'[0], b, size);
  }

  lemma SafeLocal(w: Memory, w': Memory, L: Layout, L': Layout, segs: seq<Segment>)
    requires Spared(w, w', L', segs)
    ensures Local(w, w', segs)
  {}

  lemma SafeSpared(w: Memory, w': Memory, L: Layout, segs: seq<Segment>)
    requires PayloadSafe(w, w', L, segs)
    ensures Spared(w, w', L, segs)
  {}

  lemma LeastStays(w: Memory, mapped: set<int>, segs: seq<Segment>, mm: map<int, Region>, page: nat, least: int, b: int)
    requires BooksOk(w, mapped, segs, mm, page, least) && |segs| > 0 && b >= segs[0].base
    ensures b >= least
  {}

  /** Writes that spare the payloads of L' spare those of L, if L has the same chunks in use. */
  lemma UndisturbedBy(w: Memory, w': Memory, L: Layout, L': Layout, segs: seq<Segment>, mm: map<int, Region>)
    requires Spared(w, w', L', segs) && Used(L) == Used(L')
    requires forall p, a :: InMappedPayload(mm, p, a) ==> Rd(w', a) == Rd(w, a)
    ensures Undisturbed(w, w', L, mm)
  {
    forall u, a | InPayload(L, u, a) ensures Rd(w', a) == Rd(w, a) {
      assert u in Used(L) && Used(L)[u] == Used(L')[u];
      assert InPayload(L', u, a);
    }
  }

  // ------------------------------------------------------------- a new segment

  /** align_offset */
  function AlignOffset(a: int): nat { if a % 16 == 0 then 0 else 16 - a % 16 }

  /** Trailing fenceposts from the chunk-sized slot at p to the end of the segment. */
  method AddFences(m: MState, p: int, end: int) returns (nfences: nat)
    requires p + 16 < end && p % 8 == 0 && end % 8 == 0
    modifies m`word
    ensures forall a :: Rd(m.word, a) != Rd(old(m.word), a) ==> p + 8 <= a < end
    ensures nfences >= 2 && nfences == (end - p) / 8 - 1
    ensures Posted(m.word, p, end)
  {
    nfences := 0;
    var q := p;
    while true
      invariant p <= q && HeadAt(q) < end && q == p + 8 * nfences
      invariant forall a :: Rd(m.word, a) != Rd(old(m.word), a) ==> p + 8 <= a < end
      invariant Posted(m.word, p, HeadAt(q))
      decreases end - q
    {
      PostMore(m.word, p, nfences);
      m.word := m.word[HeadAt(q) := FENCEPOST_HEAD];
      nfences := nfences + 1;
      if q + 16 < end { q := q + 8; } else { break; }
    }
  }

  lemma OnGrid(x: int, n: nat)
    requires x % 8 == 0 && 8 * n + 8 <= x < 8 * n + 16
    ensures x == 8 * n + 8
  {
    assert x == 8 * (x / 8);
  }

  /** One more fencepost: the next word to be one is 8 bytes on. */
  lemma PostMore(w: Memory, p: int, n: nat)
    requires Posted(w, p, p + 8 * n + 8)
    ensures Posted(w[p + 8 * n + 8 := FENCEPOST_HEAD], p, p + 8 * n + 16)
  {
    var w' := w[p + 8 * n + 8 := FENCEPOST_HEAD];
    forall a | p + 8 <= a < p + 8 * n + 16 && (a - p) % 8 == 0 ensures Rd(w', a) == FENCEPOST_HEAD {
      if a >= p + 8 * n + 8 { OnGrid(a - p, n); }
      assert a < p + 8 * n + 8 ==> Rd(w, a) == FENCEPOST_HEAD;
    }
  }

  /** Where the old top segment and the grant lie. */
  ghost predicate AddReady(segs: seq<Segment>, top: int, topsize: nat, b: int, size: nat) {
    && |segs| > 0 && top > 0 && top % 16 == 0 && topsize > 0 && topsize % 16 == 0 && b % 16 == 0 && size % 16 == 0
    && size > TOP_FOOT_SIZE
    && top + topsize + TOP_FOOT_SIZE == segs[0].base + segs[0].size && segs[0].base <= top
    && Beside(b, size, segs[0].base, segs[0].size) && b > 0
  }

  /** Where add_segment puts the record: right before the foot, or over a top too small to keep. */
  function RecordSpot(oldTop: int, oldEnd: int): int {
    var rawsp := oldEnd - (RECORD_SIZE + 32 + 15);
    var asp := rawsp + AlignOffset(rawsp + 16);
    if asp < oldTop + MIN_CHUNK_SIZE then oldTop else asp
  }

  lemma SpotIs(segs: seq<Segment>, s: Spare, b: int, size: nat)
    requires AddReady(segs, s.top, s.topsize, b, size)
    ensures RecordSpot(s.top, segs[0].base + segs[0].size) == RecordAt(s)
    ensures var r, end := RecordAt(s), segs[0].base + segs[0].size;
      r + RECORD_SIZE + 16 < end && r % 8 == 0 && end % 8 == 0 && s.top <= r && (r == s.top || r == s.top + s.topsize)
  {
    var end := segs[0].base + segs[0].size;
    Sum16(s.top, s.topsize);
    Sum16(s.top + s.topsize, TOP_FOOT_SIZE);
    Sum16(end, 0);
    BeforeFoot(end);
    hide AlignOffset;
  }

  lemma Sum16(x: int, y: int)
    requires x % 16 == 0 && y % 16 == 0
    ensures (x + y) % 16 == 0 && x % 8 == 0
  {}

  lemma BeforeFoot(end: int)
    requires end % 16 == 0
    ensures end - 95 + AlignOffset(end - 95 + 16) == end - 80
  {
    assert (end - 79) % 16 == 1;
  }

  /** The stores of add_segment after init_top. */
  method WriteRecord(m: MState, oldTop: int, csp: int, oldEnd: int, ghost w: Memory, ghost s: Spare,
                     ghost segs: seq<Segment>, ghost b: int, ghost size: nat)
    requires AddReady(segs, s.top, s.topsize, b, size) && oldTop == s.top && csp == RecordAt(s)
    requires oldEnd == segs[0].base + segs[0].size
    requires m.word == TopTags(w, b, size - TOP_FOOT_SIZE)
    modifies m`word
    ensures AddTagged(w, m.word, s, b, size - TOP_FOOT_SIZE, oldEnd)
  {
    hide AddTagged, TopTags, FreeWithPinuse, HeadWord, AddReady, Posted, RecordSpot;
    SpotIs(segs, s, b, size);
    m.word := m.word[HeadAt(csp) := HeadWord(Chunk(RECORD_SIZE, true, true))];
    var nfences := AddFences(m, csp + RECORD_SIZE, oldEnd);
    AddedWords(w, m.word, s, segs, b, size);
    if csp != oldTop {
      m.word := FreeWithPinuse(m.word, oldTop, csp - oldTop, csp);
    }
  }

  /** The updates of add_segment, up to binning what is left of the old top. */
  method SetAdded(m: MState, b: int, size: nat) returns (psize: nat)
    requires AddReady(m.segs, m.top, m.topsize, b, size)
    modifies m`least, m`segs, m`word, m`top, m`topsize, m`trimCheck, m`footprint, m`maxFootprint, m`L
    ensures m.segs == Added(old(m.segs), old(m.Spares()), b, size)
    ensures m.top == b && m.topsize == size - TOP_FOOT_SIZE
    ensures psize == if old(m.topsize) >= MIN_CHUNK_SIZE then old(m.topsize) else 0
    ensures AddTagged(old(m.word), m.word, old(m.Spares()), b, size - TOP_FOOT_SIZE,
                      old(m.segs[0].base + m.segs[0].size))
    ensures m.least == if b < old(m.least) then b else old(m.least)
    ensures m.footprint == old(m.footprint) + size
    ensures m.maxFootprint == Peak(old(m.maxFootprint), m.footprint)
    ensures m.L == WithSegment(old(m.L), old(m.Spares()), b, size - TOP_FOOT_SIZE)
    ensures m.trimCheck == m.mp.trimThreshold
  {
    hide AddTagged, WithSegment, TopTags;
    ghost var s, w, segs := m.Spares(), m.word, m.segs;
    SpotIs(m.segs, s, b, size);
    var oldTop, oldEnd := m.top, m.segs[0].base + m.segs[0].size;
    var csp := RecordSpot(oldTop, oldEnd);
    psize := csp - oldTop;
    Charge(m, size);
    m.least := if b < m.least then b else m.least;
    InitTop(m, b, size - TOP_FOOT_SIZE);
    m.segs := [Segment(b, size, 0), m.segs[0].(rec := csp)] + m.segs[1..];
    WriteRecord(m, oldTop, csp, oldEnd, w, s, segs, b, size);
    m.L := WithSegment(m.L, s, b, size - TOP_FOOT_SIZE);
  }

  /** The head of the record, the new top and the fenceposts do not run into each other. */
  lemma AddedWords(w: Memory, w2: Memory, s: Spare, segs: seq<Segment>, b: int, size: nat)
    requires AddReady(segs, s.top, s.topsize, b, size)
    requires var head := HeadWord(Chunk(RECORD_SIZE, true, true));
      var w1 := TopTags(w, b, size - TOP_FOOT_SIZE)[HeadAt(RecordAt(s)) := head];
      forall a :: Rd(w2, a) != Rd(w1, a) ==> RecordAt(s) + RECORD_SIZE + 8 <= a < segs[0].base + segs[0].size
    requires Posted(w2, RecordAt(s) + RECORD_SIZE, segs[0].base + segs[0].size)
    ensures var r := RecordAt(s);
      AddTagged(w, if r != s.top then FreeWithPinuse(w2, s.top, r - s.top, r) else w2, s, b, size - TOP_FOOT_SIZE,
                segs[0].base + segs[0].size)
  {
    var r, n := RecordAt(s), size - TOP_FOOT_SIZE;
    var end := segs[0].base + segs[0].size;
    var w1 := TopTags(w, b, n)[HeadAt(r) := HeadWord(Chunk(RECORD_SIZE, true, true))];
    assert Rd(w2, HeadAt(r)) == 51 && Rd(w2, HeadAt(b)) == HeadWord(Chunk(n, false, true));
    assert Rd(w2, HeadAt(b + n)) == TOP_FOOT_SIZE;
    forall a | !AddWrites(s, b, n, end, a) ensures Rd(w2, a) == Rd(w, a) { assert Rd(w1, a) == Rd(w, a); }
    if r != s.top {
      RestTagged(w, w2, s, segs, b, size);
    } else {
      assert s.topsize < MIN_CHUNK_SIZE;
      assert AddTagged(w, w2, s, b, n, end);
    }
  }

  /** What is left of the old top gets its tags in front of the record. */
  lemma RestTagged(w: Memory, w2: Memory, s: Spare, segs: seq<Segment>, b: int, size: nat)
    requires AddReady(segs, s.top, s.topsize, b, size) && RecordAt(s) != s.top
    requires var n := size - TOP_FOOT_SIZE;
      && Rd(w2, HeadAt(RecordAt(s))) == 51 && Rd(w2, HeadAt(b)) == HeadWord(Chunk(n, false, true))
      && Rd(w2, HeadAt(b + n)) == TOP_FOOT_SIZE && Posted(w2, RecordAt(s) + RECORD_SIZE, segs[0].base + segs[0].size)
      && forall a :: !AddWrites(s, b, n, segs[0].base + segs[0].size, a) ==> Rd(w2, a) == Rd(w, a)
    ensures AddTagged(w, FreeWithPinuse(w2, s.top, RecordAt(s) - s.top, RecordAt(s)), s, b, size - TOP_FOOT_SIZE,
                      segs[0].base + segs[0].size)
  {
    var r, n, end := RecordAt(s), size - TOP_FOOT_SIZE, segs[0].base + segs[0].size;
    var w3 := FreeWithPinuse(w2, s.top, r - s.top, r);
    assert Rd(w3, HeadAt(r)) == 50;
    assert Rd(w3, HeadAt(b)) == Rd(w2, HeadAt(b)) && Rd(w3, HeadAt(b + n)) == Rd(w2, HeadAt(b + n));
    forall a | r + RECORD_SIZE + 8 <= a ensures a < end ==> Rd(w3, a) == Rd(w2, a) {}
    forall a | !AddWrites(s, b, n, end, a) ensures Rd(w3, a) == Rd(w, a) { assert Rd(w3, a) == Rd(w2, a); }
    hide FreeWithPinuse, AddReady;
  }

  lemma AddRoom(w: Memory, L: Layout, segs: seq<Segment>, s: Spare, b: int, size: nat, mm: map<int, Region>,
                mapped: set<int>, mapped': set<int>, mp: Params, least: int)
    requires LayoutOk(L, segs, s) && s.top != 0 && 0 < b && size > TOP_FOOT_SIZE
    requires ParamsOk(mp) && BooksOk(w, mapped, segs, mm, mp.page, least) && Granted(mapped, mapped', b, size)
    requires OnPages(mp.page, b, size)
    ensures AddReady(segs, s.top, s.topsize, b, size) && SegmentsApart(segs)
    ensures forall k :: 0 <= k < |segs| ==> b + size <= segs[k].base || segs[k].base + segs[k].size <= b
  {
    hide Coalesced, AllFollowed, Based, MinSized, Recorded, BooksOk, Granted, ParamsOk, OnPages, Bytes, SegmentsApart,
      AllContained, Disjoint;
    FreshPages(mp, b, size);
    FreshRoom(w, mapped, mapped', segs, mm, mp.page, least, b, size);
    TopWithin(L, segs, s.top);
  }

  /** The heap and the books after add_segment; what is left of the old top is in no bin yet. */
  lemma AddedAll(w: Memory, w': Memory, L: Layout, segs: seq<Segment>, s: Spare, g: Index, b: int, size: nat,
                 mm: map<int, Region>,
                 mapped: set<int>, mapped': set<int>, mp: Params, least: int)
    requires LayoutOk(L, segs, s) && s.top != 0 && Tagged(w, L, s.top) && Indexed(L, g.size, s, {}) && Structured(g)
    requires Threaded(w, g) && Fenced(w, segs)
    requires ParamsOk(mp) && BooksOk(w, mapped, segs, mm, mp.page, least) && Granted(mapped, mapped', b, size)
    requires OnPages(mp.page, b, size)
    requires 0 < b && size > TOP_FOOT_SIZE && b + size < LIMIT && |segs| > 0
    requires AddTagged(w, w', s, b, size - TOP_FOOT_SIZE, segs[0].base + segs[0].size)
    ensures var n := size - TOP_FOOT_SIZE;
      var L', segs', s' := WithSegment(L, s, b, n), Added(segs, s, b, size), AddedSpare(s, b, size);
      && LayoutOk(L', segs', s') && Tagged(w', L', b) && Indexed(L', g.size, s', {s.top}) && Threaded(w', g)
      && Fenced(w', segs')
      && BooksOk(w', mapped', segs', mm, mp.page, if b < least then b else least) && |mapped'| == |mapped| + size
      && Undisturbed(w, w', L, mm) && Used(L') == Used(L)[RecordAt(s) := RECORD_SIZE] && RecordAt(s) !in Used(L)
  {
    hide LayoutOk, Structured, Threaded, Tagged, Indexed, BooksOk, Granted, Used, WithSegment, Spared,
      SegmentsApart, Undisturbed, Fenced;
    hide OnPages, ParamsOk, Added, AddTagged, Local;
    AddRoom(w, L, segs, s, b, size, mm, mapped, mapped', mp, least);
    AddedState(w, w', L, segs, s, b, size, g);
    SafeLocal(w, w', L, L, Added(segs, s, b, size));
    AddedBooks(w, w', mapped, mapped', segs, s, b, size, mm, mp.page, least);
    UndisturbedBy(w, w', L, L, Added(segs, s, b, size), mm);
  }

  /** add_segment */
  method AddSegment(m: MState, b: int, size: nat, ghost mapped: set<int>)
    requires m.HeapValid() && Fresh(m, mapped, b, size) && m.top != 0 && size > TOP_FOOT_SIZE
    modifies m`least, m`segs, m`word, m`top, m`topsize, m`trimCheck, m`footprint, m`maxFootprint, m`L, m`smallmap
    modifies m`treemap, m`treebins, m`g
    ensures m.Valid() && m.top == b && m.topsize == size - TOP_FOOT_SIZE && m.trimCheck == m.mp.trimThreshold
    ensures Live(m.L, m.segs) == Live(old(m.L), old(m.segs))
    ensures m.segs == Added(old(m.segs), old(m.Spares()), b, size)
    ensures m.least == if b < old(m.least) then b else old(m.least)
    ensures m.footprint == old(m.footprint) + size && m.maxFootprint == Peak(old(m.maxFootprint), m.footprint)
    ensures Undisturbed(old(m.word), m.word, old(m.L), m.mm) && Extends(Used(old(m.L)), Used(m.L))
  {
    hide Structured, Threaded, Mapped, LayoutOk, Tagged, Indexed, BooksOk, Granted, ParamsOk, OnPages, Undisturbed,
      Used, WithSegment, AddTagged, Fenced;
    hide Added, Live, PayloadSafe;
    ghost var w, L, segs, s, least := m.word, m.L, m.segs, m.Spares(), m.least;
    TopThere(L, segs, s);
    AddRoom(w, L, segs, s, b, size, m.mm, mapped, m.os.mapped, m.mp, least);
    var oldTop := m.top;
    var psize := SetAdded(m, b, size);
    AddedAll(w, m.word, L, segs, s, m.g, b, size, m.mm, mapped, m.os.mapped, m.mp, least);
    AddedLive(L, segs, s, b, size);
    AddedRest(L, segs, s, m.g.size, b, size);
    if psize != 0 {
      ghost var w1 := m.word;
      PutAway(m, oldTop, psize);
      BooksStay(w, w1, m.word, m.os.mapped, L, m.L, m.segs, m.mm, m.mp.page, m.least, RecordAt(s), RECORD_SIZE);
    }
  }

  /** Binning leaves the books and all payloads alone. */
  lemma BooksStay(w: Memory, w1: Memory, w2: Memory, mapped: set<int>, L: Layout, L': Layout, segs: seq<Segment>,
                  mm: map<int, Region>,
                  page: nat, least: int, r: int, n: nat)
    requires BooksOk(w1, mapped, segs, mm, page, least) && PayloadSafe(w1, w2, L', segs) && Undisturbed(w, w1, L, mm)
    requires Used(L') == Used(L)[r := n] && r !in Used(L)
    ensures BooksOk(w2, mapped, segs, mm, page, least) && Undisturbed(w, w2, L, mm)
  {
    BooksKept(w1, w2, segs, L', mm);
    forall u, a | InPayload(L, u, a) ensures Rd(w2, a) == Rd(w, a) {
      assert u in Used(L) && Used(L')[u] == Used(L)[u];
      assert InPayload(L', u, a);
    }
  }

  lemma AddedLive(L: Layout, segs: seq<Segment>, s: Spare, b: int, size: nat)
    requires |segs| > 0 && size > TOP_FOOT_SIZE
    requires Used(WithSegment(L, s, b, size - TOP_FOOT_SIZE)) == Used(L)[RecordAt(s) := RECORD_SIZE]
    requires RecordAt(s) !in Used(L)
    ensures Live(WithSegment(L, s, b, size - TOP_FOOT_SIZE), Added(segs, s, b, size)) == Live(L, segs)
  {
    var L', segs' := WithSegment(L, s, b, size - TOP_FOOT_SIZE), Added(segs, s, b, size);
    assert segs'[1].rec == RecordAt(s);
    forall p ensures IsRecord(segs', p) <==> p == RecordAt(s) || IsRecord(segs, p) {
      if IsRecord(segs, p) { var k :| 1 <= k < |segs| && p == segs[k].rec; assert segs'[k + 1].rec == p; }
      if IsRecord(segs', p) { var k :| 1 <= k < |segs'| && p == segs'[k].rec; assert k > 1 ==> segs[k - 1].rec == p; }
    }
    assert forall p :: p in L' && L'[p].inuse <==> p in Used(L');
    assert forall p :: p in L && L[p].inuse <==> p in Used(L);
  }

  /** What is left of the old top, if it can be a chunk. */
  lemma AddedRest(L: Layout, segs: seq<Segment>, s: Spare, size0: map<int, nat>, b: int, size: nat)
    requires |segs| > 0 && size > TOP_FOOT_SIZE && LayoutOk(L, segs, s) && s.top != 0
    requires LayoutOk(WithSegment(L, s, b, size - TOP_FOOT_SIZE), Added(segs, s, b, size), AddedSpare(s, b, size))
    requires Indexed(WithSegment(L, s, b, size - TOP_FOOT_SIZE), size0, AddedSpare(s, b, size), {s.top}) && s.top != b
    ensures var L' := WithSegment(L, s, b, size - TOP_FOOT_SIZE);
      if s.topsize >= MIN_CHUNK_SIZE then
        s.top in L' && !L'[s.top].inuse && L'[s.top].size == s.topsize && s.top != s.dv
      else Indexed(L', size0, AddedSpare(s, b, size), {})
  {
    hide Coalesced, AllContained, AllFollowed, Based, Disjoint, Tiled, MinSized, Recorded;
  }

  // ------------------------------------------------------------- prepend

  /** The grant, in front of segment k, as a chunk of nb bytes in use and a remainder. */
  ghost function PrependedHeap(L: Layout, b: int, size: nat, nb: nat): Layout requires nb < size
  { Split(WithFirst(L, b, size), b, nb) }

  /** The heads of the two; the remainder's is rewritten when it is merged and put away. */
  function PrependTags(w: Memory, b: int, size: nat, nb: nat): Memory requires nb <= size
  { SplitTags(w[HeadAt(b) := HeadWord(Chunk(size, true, true))], b, nb, size, true) }

  /** The updates of sys_alloc when the grant ends where segment k begins. */
  method SetPrepended(m: MState, k: nat, b: int, size: nat, nb: nat)
    requires k < |m.segs| && b + size == m.segs[k].base && nb < size
    modifies m`least, m`segs, m`word, m`footprint, m`maxFootprint, m`L
    ensures m.segs == Prepended(old(m.segs), k, size) && m.word == PrependTags(old(m.word), b, size, nb)
    ensures m.least == if b < old(m.least) then b else old(m.least)
    ensures m.footprint == old(m.footprint) + size
    ensures m.maxFootprint == Peak(old(m.maxFootprint), m.footprint)
    ensures m.L == PrependedHeap(old(m.L), b, size, nb)
  {
    Charge(m, size);
    if b < m.least { m.least := b; }
    m.segs := m.segs[k := m.segs[k].(base := b, size := m.segs[k].size + size)];
    m.word := m.word[HeadAt(b) := HeadWord(Chunk(nb, true, true))]
                    [HeadAt(b + nb) := HeadWord(Chunk(size - nb, true, true))];
    m.L := PrependedHeap(m.L, b, size, nb);
  }

  lemma PrependedRoom(w: Memory, L: Layout, segs: seq<Segment>, s: Spare, k: nat, b: int, size: nat, mm: map<int,
                      Region>,
                      mapped: set<int>, mapped': set<int>, mp: Params, least: int)
    requires LayoutOk(L, segs, s) && k < |segs| && 0 < b && size > 0 && b + size == segs[k].base && b + size < LIMIT
    requires ParamsOk(mp) && BooksOk(w, mapped, segs, mm, mp.page, least) && Granted(mapped, mapped', b, size)
    requires OnPages(mp.page, b, size)
    ensures var segs' := Prepended(segs, k, size);
      && SegmentsApart(segs') && SegmentsApart(segs) && segs' == segs[k := segs'[k]]
      && Widens(segs, k, segs'[k], b, size) && size % 16 == 0
  {
    hide Coalesced, AllContained, AllFollowed, Based, Disjoint, MinSized, Recorded, BooksOk, Granted, ParamsOk, OnPages,
      Bytes, Beside, SegmentsApart;
    var segs' := Prepended(segs, k, size);
    FreshPages(mp, b, size);
    FreshRoom(w, mapped, mapped', segs, mm, mp.page, least, b, size);
    Bounds(segs, k);
    WidenedSegments(segs, k, segs'[k], b, size);
  }

  lemma PrependedAll(w: Memory, L: Layout, segs: seq<Segment>, s: Spare, g: Index, k: nat, b: int, size: nat, nb: nat,
                     mm: map<int, Region>,
                     mapped: set<int>, mapped': set<int>, mp: Params, least: int)
    requires LayoutOk(L, segs, s) && Tagged(w, L, s.top) && Indexed(L, g.size, s, {}) && Structured(g) && Threaded(w, g)
    requires k < |segs| && 0 < b && b + size == segs[k].base && b + size < LIMIT
    requires nb % 16 == 0 && MIN_CHUNK_SIZE <= nb && nb + MIN_CHUNK_SIZE <= size
    requires ParamsOk(mp) && BooksOk(w, mapped, segs, mm, mp.page, least) && Granted(mapped, mapped', b, size)
    requires OnPages(mp.page, b, size) && Fenced(w, segs)
    ensures var L', segs', w' := PrependedHeap(L, b, size, nb), Prepended(segs, k, size), PrependTags(w, b, size, nb);
      && LayoutOk(L', segs', s) && Tagged(w', L', s.top) && Indexed(L', g.size, s, {}) && Threaded(w', g)
      && Fenced(w', segs')
      && BooksOk(w', mapped', segs', mm, mp.page, if b < least then b else least) && |mapped'| == |mapped| + size
      && Used(L') == Used(L)[b := nb][b + nb := size - nb] && b !in L && b + nb !in L && Undisturbed(w, w', L, mm)
      && !IsRecord(segs', b) && !IsRecord(segs', b + nb) && b + nb in L' && L'[b + nb] == Chunk(size - nb, true, true)
  {
    hide LayoutOk, Structured, Threaded, Tagged, Indexed, BooksOk, Granted, PayloadSafe, SegmentsApart, Undisturbed;
    hide OnPages, ParamsOk, Local, SplitTags, Widens, Fenced, Spared;
    var segs' := Prepended(segs, k, size);
    var w1, L1 := w[HeadAt(b) := HeadWord(Chunk(size, true, true))], WithFirst(L, b, size);
    PrependedRoom(w, L, segs, s, k, b, size, mm, mapped, mapped', mp, least);
    PrependedState(w, L, segs, s, k, size, g);
    NoRecordThere(L, segs, segs', s, k, size, b);
    SplitState(w1, L1, segs', s, b, nb, g);
    SafeBefore2(w, w1, SplitTags(w1, b, nb, size, true), L, Split(L1, b, nb), segs', b, nb, b + nb, size - nb);
    SafeEnds(w1, SplitTags(w1, b, nb, size, true), L1, Split(L1, b, nb), segs', s);
    SafeSpared(w, SplitTags(w1, b, nb, size, true), L, segs');
    SafeLocal(w, SplitTags(w1, b, nb, size, true), L, L, segs');
    WidenedBooks(w, SplitTags(w1, b, nb, size, true), mapped, mapped', segs, k, segs'[k], b, size, mm, mp.page, least);
    UndisturbedBy(w, SplitTags(w1, b, nb, size, true), L, L, segs', mm);
  }

  lemma NoRecordThere(L: Layout, segs: seq<Segment>, segs': seq<Segment>, s: Spare, k: nat, t: nat, b: int)
    requires LayoutOk(L, segs, s) && k < |segs| && segs' == Prepended(segs, k, t) && b !in L
    ensures !IsRecord(segs', b)
  {
    forall j | 1 <= j < |segs'| ensures segs'[j].rec != b { assert segs'[j].rec == segs[j].rec && segs[j].rec in L; }
  }

  /** As SafeBefore, for two chunks that came into use. */
  lemma SafeBefore2(w: Memory, w1: Memory, w2: Memory, L: Layout, L': Layout, segs: seq<Segment>, p: int, n: nat,
                    q: int, n': nat)
    requires PayloadSafe(w, w1, L, segs) && PayloadSafe(w1, w2, L', segs) && Used(L') == Used(L)[p := n][q := n']
    requires p !in L && q !in L
    ensures PayloadSafe(w, w2, L, segs)
  {
    forall u, a | InPayload(L, u, a) ensures Rd(w2, a) == Rd(w, a) {
      assert u in Used(L) && u in Used(L') && Used(L')[u] == Used(L)[u];
      assert InPayload(L', u, a);
    }
  }

  /** prepend_alloc: the request is met from the front of the grant, the rest merges with the old first chunk. */
  method PrependAlloc(m: MState, k: nat, b: int, size: nat, nb: nat, ghost mapped: set<int>) returns (p: int)
    requires m.HeapValid() && Fresh(m, mapped, b, size) && k < |m.segs| && b + size == m.segs[k].base
    requires nb % 16 == 0 && MIN_CHUNK_SIZE <= nb && nb + MIN_CHUNK_SIZE <= size
    modifies m`least, m`segs, m`word, m`top, m`topsize, m`dv, m`dvsize, m`footprint, m`maxFootprint, m`L, m`smallmap
    modifies m`treemap, m`treebins, m`g
    ensures m.Valid() && p == b && p !in old(m.L) && Used(m.L) == Used(old(m.L))[p := nb] && !IsRecord(m.segs, p)
    ensures m.segs == Prepended(old(m.segs), k, size) && m.maxFootprint == Peak(old(m.maxFootprint), m.footprint)
    ensures m.least == if b < old(m.least) then b else old(m.least)
    ensures m.footprint == old(m.footprint) + size && Undisturbed(old(m.word), m.word, old(m.L), m.mm)
  {
    hide Structured, Threaded, Mapped, LayoutOk, Tagged, Indexed, BooksOk, Granted, ParamsOk, OnPages, Undisturbed,
      Used;
    hide PrependedHeap, PrependTags, PayloadsKept, Fuse, Run, Prepended, Fenced;
    ghost var w, L, s, g := m.word, m.L, m.Spares(), m.g;
    PrependedAll(w, L, m.segs, s, g, k, b, size, nb, m.mm, mapped, m.os.mapped, m.mp, m.least);
    SetPrepended(m, k, b, size, nb);
    ghost var w1, L1 := m.word, m.L;
    p := b;
    var q, qsize := b + nb, size - nb;
    Neighbours(w1, L1, m.segs, s, g.size, q);
    var fate, total := Consolidate(m, q, qsize, b + size, q);
    PrependedDone(w, w1, m.word, m.os.mapped, L, L1, m.L, m.segs, m.mm, m.mp.page, m.least, s, b, nb, q, qsize);
  }

  lemma PrependedDone(w: Memory, w1: Memory, w2: Memory, mapped: set<int>, L: Layout, L1: Layout, L2: Layout,
                      segs: seq<Segment>, mm: map<int, Region>,
                      page: nat, least: int, s: Spare, b: int, nb: nat, q: int, qsize: nat)
    requires LayoutOk(L1, segs, s) && Used(L1) == Used(L)[b := nb][q := qsize] && b !in L && q !in L && b != q
    requires q in L1 && End(L1, q) in L1 && Run(L1, q, q, RunEnd(L1, q)) && L2 == Fuse(L1, q, RunEnd(L1, q), false)
    requires BooksOk(w1, mapped, segs, mm, page, least) && PayloadsKept(w1, w2, L1, L2, segs)
    requires Undisturbed(w, w1, L, mm)
    ensures Used(L2) == Used(L)[b := nb] && BooksOk(w2, mapped, segs, mm, page, least) && Undisturbed(w, w2, L, mm)
  {
    hide Coalesced, AllContained, AllFollowed, Based, MinSized, Recorded, Run, Fuse;
    FreedUsed(L1, q, q, RunEnd(L1, q));
    LocalKeepsMapped(w1, w2, segs, mm);
    assert q !in Used(L) && Used(L)[b := nb][q := qsize] - {q} == Used(L)[b := nb];
    forall u, a | InPayload(L, u, a) ensures Rd(w2, a) == Rd(w, a) {
      assert u in Used(L) && u in Used(L1) && u in Used(L2) && Used(L1)[u] == Used(L)[u] == Used(L2)[u];
      assert InPayload(L1, u, a) && InPayload(L2, u, a);
    }
  }

  // ------------------------------------------------------------- live chunks

  ghost predicate SameRecords(segs: seq<Segment>, segs': seq<Segment>)
  {
    && |segs| == |segs'|
    && forall k {:trigger segs[k]} {:trigger segs'[k]} :: 1 <= k < |segs| ==> segs[k].rec == segs'[k].rec
  }

  lemma SameLive(L: Layout, L': Layout, segs: seq<Segment>, segs': seq<Segment>)
    requires Used(L) == Used(L') && SameRecords(segs, segs')
    ensures Live(L, segs) == Live(L', segs')
  {
    forall p ensures IsRecord(segs, p) <==> IsRecord(segs', p) {
      if IsRecord(segs, p) { var k :| 1 <= k < |segs| && p == segs[k].rec; assert segs'[k].rec == p; }
      if IsRecord(segs', p) { var k :| 1 <= k < |segs'| && p == segs'[k].rec; assert segs[k].rec == p; }
    }
    assert forall p :: p in L && L[p].inuse <==> p in Used(L);
    assert forall p :: p in L' && L'[p].inuse <==> p in Used(L');
  }

  /** One more chunk in use is one more live chunk. */
  lemma LiveTaken(L: Layout, L': Layout, segs: seq<Segment>, p: int, n: nat)
    requires Used(L') == Used(L)[p := n] && p !in Used(L) && !IsRecord(segs, p)
    ensures Live(L', segs) == Live(L, segs)[p := n] && p !in Live(L, segs)
  {
    assert forall q :: q in L && L[q].inuse <==> q in Used(L);
    assert forall q :: q in L' && L'[q].inuse <==> q in Used(L');
  }

  /** A few facts of a heap in order. */
  lemma HeapFacts(m: MState)
    requires m.HeapValid()
    ensures m.top != 0 ==> |m.segs| > 0 && m.top in m.L
    ensures m.top == 0 ==> m.L == map[] && m.segs == []
    ensures forall q :: IsRecord(m.segs, q) ==> q in Used(m.L)
  {
    RecordsUsed(m.L, m.segs);
  }

  lemma RecordsUsed(L: Layout, segs: seq<Segment>)
    requires Recorded(L, segs)
    ensures forall q :: IsRecord(segs, q) ==> q in Used(L)
  {
    forall q | IsRecord(segs, q) ensures q in Used(L) {
      var k :| 1 <= k < |segs| && q == segs[k].rec;
      assert segs[k].rec in L;
    }
  }

  /** Nothing in use is lost between the two. */
  ghost predicate Extends(u: map<int, nat>, u': map<int, nat>) { forall p :: p in u ==> p in u' && u'[p] == u[p] }

  lemma UndisturbedTrans(w: Memory, w1: Memory, w2: Memory, L: Layout, L1: Layout, mm: map<int, Region>)
    requires Undisturbed(w, w1, L, mm) && Undisturbed(w1, w2, L1, mm) && Extends(Used(L), Used(L1))
    ensures Undisturbed(w, w2, L, mm)
  {
    forall u, a | InPayload(L, u, a) ensures Rd(w2, a) == Rd(w, a) {
      assert u in Used(L) && u in Used(L1) && Used(L1)[u] == Used(L)[u];
      assert InPayload(L1, u, a);
    }
  }

  lemma NoneLive(L: Layout, segs: seq<Segment>)
    requires Used(L) == map[]
    ensures Live(L, segs) == map[]
  {
    assert forall q :: q in L && L[q].inuse <==> q in Used(L);
  }

  lemma PrependedRecords(segs: seq<Segment>, k: nat, t: nat)
    requires k < |segs|
    ensures SameRecords(segs, Prepended(segs, k, t))
  {}

  lemma ResizedRecords(segs: seq<Segment>, size: nat)
    requires |segs| > 0
    ensures SameRecords(segs, Resized(segs, size))
  {}

  lemma LiveFreed(L: Layout, L': Layout, segs: seq<Segment>, p: int)
    requires Used(L') == Used(L) - {p}
    ensures Live(L', segs) == Live(L, segs) - {p}
  {
    assert forall q :: q in L && L[q].inuse <==> q in Used(L);
    assert forall q :: q in L' && L'[q].inuse <==> q in Used(L');
  }

  // ------------------------------------------------------------- sys_alloc

  /** The first segment in the list that ends at a; |segs| if none does. */
  method SegmentEndingAt(segs: seq<Segment>, a: int) returns (k: nat)
    ensures k <= |segs| && (k < |segs| ==> segs[k].base + segs[k].size == a)
    ensures forall j :: 0 <= j < k ==> segs[j].base + segs[j].size != a
  {
    k := 0;
    while k < |segs| && segs[k].base + segs[k].size != a
      invariant k <= |segs| && forall j :: 0 <= j < k ==> segs[j].base + segs[j].size != a
    {
      k := k + 1;
    }
  }

  /** The first segment in the list that starts at a; |segs| if none does. */
  method SegmentStartingAt(segs: seq<Segment>, a: int) returns (k: nat)
    ensures k <= |segs| && (k < |segs| ==> segs[k].base == a)
    ensures forall j :: 0 <= j < k ==> segs[j].base != a
  {
    k := 0;
    while k < |segs| && segs[k].base != a
      invariant k <= |segs| && forall j :: 0 <= j < k ==> segs[j].base != a
    {
      k := k + 1;
    }
  }

  lemma HoldsTop(L: Layout, segs: seq<Segment>, s: Spare, k: nat)
    requires LayoutOk(L, segs, s) && s.top != 0 && k < |segs| && segs[k].base <= s.top < segs[k].base + segs[k].size
    ensures k == 0
  {
    TopWithin(L, segs, s.top);
    Bounds(segs, 0);
    SameSegment(segs, 0, k, s.top);
  }

  /** Top space taken for a request keeps the books. */
  method MallocTop(m: MState, nb: nat) returns (p: int)
    requires m.Valid() && nb % 16 == 0 && MIN_CHUNK_SIZE <= nb < m.topsize
    modifies m`word, m`top, m`topsize, m`L
    ensures m.Valid() && Used(m.L) == Used(old(m.L))[p := nb] && p !in Used(old(m.L)) && p > 0
    ensures Undisturbed(old(m.word), m.word, old(m.L), m.mm)
  {
    hide MState.HeapValid, BooksOk, Undisturbed, PayloadSafe, Used;
    ghost var w, L := m.word, m.L;
    p := MallocFromTop(m, nb);
    BooksAfter(w, m.word, m.os.mapped, L, m.segs, m.mm, m.mp.page, m.least);
  }

  lemma BooksAfter(w: Memory, w': Memory, mapped: set<int>, L: Layout, segs: seq<Segment>, mm: map<int, Region>,
                   page: nat, least: int)
    requires BooksOk(w, mapped, segs, mm, page, least) && PayloadSafe(w, w', L, segs)
    ensures BooksOk(w', mapped, segs, mm, page, least) && Undisturbed(w, w', L, mm)
  {
    BooksKept(w, w', segs, L, mm);
  }

  /** The grant [b, b + size) ends where a segment starts, and does not start where the one with top ends. */
  ghost predicate InFront(segs: seq<Segment>, s: Spare, b: int, size: nat) {
    && s.top != 0 && segs != [] && segs[0].base + segs[0].size != b
    && exists k :: 0 <= k < |segs| && segs[k].base == b + size
  }

  /** A grant becomes the only segment, or part of the segment it adjoins; only failing that a segment of its own. */
  ghost predicate Joined(segs: seq<Segment>, segs': seq<Segment>, s: Spare, b: int, size: nat) {
    if s.top == 0 || segs == [] then segs' == [Segment(b, size, 0)]
    else if segs[0].base + segs[0].size == b then segs' == Resized(segs, segs[0].size + size)
    else if InFront(segs, s, b, size)
    then exists k :: 0 <= k < |segs| && segs[k].base == b + size && segs' == Prepended(segs, k, size)
    else segs' == Added(segs, s, b, size)
  }

  /** Where sys_alloc puts the grant [b, b + size): in front of a segment, which meets the request, or else in top. */
  method PlaceGrant(m: MState, b: int, size: nat, nb: nat, ghost mapped: set<int>) returns (p: int)
    requires m.HeapValid() && Fresh(m, mapped, b, size) && nb % 16 == 0 && MIN_CHUNK_SIZE <= nb
    requires nb + SYS_ALLOC_PADDING <= size
    modifies m`least, m`segs, m`releaseChecks, m`word, m`top, m`topsize, m`dv, m`dvsize, m`trimCheck, m`footprint
    modifies m`maxFootprint
    modifies m`L, m`smallmap, m`treemap, m`treebins, m`g
    ensures m.Valid() && m.footprint == old(m.footprint) + size
    ensures m.maxFootprint == Peak(old(m.maxFootprint), m.footprint)
    ensures Undisturbed(old(m.word), m.word, old(m.L), m.mm)
    ensures Joined(old(m.segs), m.segs, old(m.Spares()), b, size)
    ensures p != 0 ==>
      p > 0 && p !in Live(old(m.L), old(m.segs)) && Live(m.L, m.segs) == Live(old(m.L), old(m.segs))[p := nb]
    ensures p != 0 <==> InFront(old(m.segs), old(m.Spares()), b, size)
    ensures m.least == LeastSeen(old(m.least), b)
    ensures m.trimCheck == if p != 0 then old(m.trimCheck) else m.mp.trimThreshold
    ensures p == 0 ==>
      && m.topsize >= size - TOP_FOOT_SIZE && Live(m.L, m.segs) == Live(old(m.L), old(m.segs))
      && Extends(Used(old(m.L)), Used(m.L))
  {
    hide MState.HeapValid, MState.BooksValid, Fresh, BooksOk, Undisturbed, PayloadSafe, Used, Live, IsRecord, Extends,
      SameRecords, Prepended, Resized, Added, Joined, InFront, Peak;
    ghost var w, L, segs, s := m.word, m.L, m.segs, m.Spares();
    HeapFacts(m);
    LeastBelow(m, mapped, b, size);
    p := 0;
    if m.top == 0 {
      InitFirst(m, b, size, mapped);
      JoinsFirst(segs, s, b, size);
      EmptyLive(L, segs, m.L, m.segs);
      return;
    }
    var k := SegmentEndingAt(m.segs, b);
    if k < |m.segs| && m.segs[k].base <= m.top < m.segs[k].base + m.segs[k].size {
      HoldsTopM(m, k);
      JoinsTop(segs, s, b, size);
      AppendTop(m, b, size, mapped);
      ResizedRecords(segs, segs[0].size + size);
      SameLive(L, m.L, segs, m.segs);
      ExtendsRefl(L, m.L);
      return;
    }
    TopFirst(m);
    k := SegmentStartingAt(m.segs, b + size);
    if k < |m.segs| {
      JoinsFront(segs, s, k, b, size);
      p := PrependAlloc(m, k, b, size, nb, mapped);
      PrependedRecords(segs, k, size);
      SameLive(L, L, segs, m.segs);
      NotUsed(L, p);
      LiveTaken(L, m.L, m.segs, p, nb);
    } else {
      JoinsNone(segs, s, b, size);
      AddSegment(m, b, size, mapped);
    }
  }

  /** sys_alloc once the system has granted [b, b + size): the request is always met. */
  method UseGrant(m: MState, b: int, size: nat, nb: nat, ghost mapped: set<int>) returns (p: int)
    requires m.HeapValid() && Fresh(m, mapped, b, size) && nb % 16 == 0 && MIN_CHUNK_SIZE <= nb
    requires nb + SYS_ALLOC_PADDING <= size
    modifies m`least, m`segs, m`releaseChecks, m`word, m`top, m`topsize, m`dv, m`dvsize, m`trimCheck, m`footprint
    modifies m`maxFootprint
    modifies m`L, m`smallmap, m`treemap, m`treebins, m`g
    ensures m.Valid() && p > 0 && p !in Live(old(m.L), old(m.segs))
    ensures Live(m.L, m.segs) == Live(old(m.L), old(m.segs))[p := nb]
    ensures m.footprint == old(m.footprint) + size && Undisturbed(old(m.word), m.word, old(m.L), m.mm)
    ensures m.maxFootprint == Peak(old(m.maxFootprint), m.footprint)
    ensures Joined(old(m.segs), m.segs, old(m.Spares()), b, size) && m.least == LeastSeen(old(m.least), b)
    ensures m.trimCheck ==
              if InFront(old(m.segs), old(m.Spares()), b, size) then old(m.trimCheck) else m.mp.trimThreshold
  {
    hide MState.HeapValid, BooksOk, Undisturbed, Used, Live, Extends, Joined, InFront;
    ghost var w, L := m.word, m.L;
    p := PlaceGrant(m, b, size, nb, mapped);
    if p == 0 {
      ghost var w1, L1 := m.word, m.L;
      HeapFacts(m);
      p := MallocTop(m, nb);
      LiveTaken(L1, m.L, m.segs, p, nb);
      UndisturbedTrans(w, w1, m.word, L, L1, m.mm);
    }
  }

  lemma LeastBelow(m: MState, mapped: set<int>, b: int, size: nat)
    requires m.HeapValid() && Fresh(m, mapped, b, size)
    ensures b > 0 && (m.top != 0 ==> |m.segs| > 0 && 0 < m.least <= m.segs[0].base)
  {
    hide MState.HeapValid, Granted, OnPages, ParamsOk;
    HeapFacts(m);
    if m.top != 0 { assert m.least <= m.segs[0].base; }
  }

  lemma JoinsFirst(segs: seq<Segment>, s: Spare, b: int, size: nat)
    requires s.top == 0
    ensures Joined(segs, [Segment(b, size, 0)], s, b, size)
    ensures !InFront(segs, s, b, size)
  {}

  lemma JoinsTop(segs: seq<Segment>, s: Spare, b: int, size: nat)
    requires s.top != 0 && |segs| > 0 && segs[0].base + segs[0].size == b
    ensures Joined(segs, Resized(segs, segs[0].size + size), s, b, size)
    ensures !InFront(segs, s, b, size)
  {}

  lemma JoinsFront(segs: seq<Segment>, s: Spare, k: nat, b: int, size: nat)
    requires s.top != 0 && k < |segs| && segs[0].base + segs[0].size != b && segs[k].base == b + size
    ensures Joined(segs, Prepended(segs, k, size), s, b, size)
    ensures InFront(segs, s, b, size)
  {}

  lemma JoinsNone(segs: seq<Segment>, s: Spare, b: int, size: nat)
    requires s.top != 0 && |segs| > 0 && segs[0].base + segs[0].size != b
    requires forall j :: 0 <= j < |segs| ==> segs[j].base != b + size
    ensures Joined(segs, Added(segs, s, b, size), s, b, size)
    ensures !InFront(segs, s, b, size)
  {}

  lemma EmptyLive(L: Layout, segs: seq<Segment>, L': Layout, segs': seq<Segment>)
    requires L == map[] && Used(L') == map[]
    ensures Live(L, segs) == Live(L', segs') && Extends(Used(L), Used(L'))
  {
    NoneLive(L, segs);
    NoneLive(L', segs');
  }

  lemma HoldsTopM(m: MState, k: nat)
    requires m.HeapValid() && m.top != 0 && k < |m.segs| && m.segs[k].base <= m.top < m.segs[k].base + m.segs[k].size
    ensures k == 0
  {
    HoldsTop(m.L, m.segs, m.Spares(), k);
  }

  /** Top is in the first segment. */
  lemma TopFirst(m: MState)
    requires m.HeapValid() && m.top != 0
    ensures |m.segs| > 0 && m.segs[0].base <= m.top < m.segs[0].base + m.segs[0].size
  {
    TopWithin(m.L, m.segs, m.top);
    Bounds(m.segs, 0);
  }

  lemma ExtendsRefl(L: Layout, L': Layout) requires Used(L) == Used(L') ensures Extends(Used(L), Used(L')) {}

  lemma NotUsed(L: Layout, p: int) requires p !in L ensures p !in Used(L) {}

  /** A padded request, or the value malloc passes on for one that is too big. */
  ghost predicate Asked(nb: nat) { nb == LIMIT - 1 || (nb < LIMIT && nb % 16 == 0 && MIN_CHUNK_SIZE <= nb) }

  /** sys_alloc may not ask the system: rounded up, the request passes 2^64, or the footprint would pass its limit. */
  ghost predicate Barred(mp: Params, footprint: nat, limit: nat, nb: nat) requires mp.granularity > 0 {
    || nb + SYS_ALLOC_PADDING + (mp.granularity - 1) >= LIMIT
    || (limit != 0 && footprint + AlignUp(nb + SYS_ALLOC_PADDING, mp.granularity) > limit)
  }

  lemma BarredIs(m: MState, nb: nat)
    requires m.Valid() && nb < LIMIT
    ensures m.mp.granularity > 0
    ensures var size := AlignUp((nb + SYS_ALLOC_PADDING) % LIMIT, m.mp.granularity);
      size <= nb || !WithinLimit(m.footprint, size, m.footprintLimit) <==>
      Barred(m.mp, m.footprint, m.footprintLimit, nb)
  {
    hide MState.HeapValid, BooksOk, AlignUp, WithinLimit, PowerOfTwo;
    LiveBelow(m);
    PaddingExact(nb, SYS_ALLOC_PADDING, m.mp.granularity);
    var size := AlignUp((nb + SYS_ALLOC_PADDING) % LIMIT, m.mp.granularity);
    if size > nb { LimitExact(m.footprint, size, m.footprintLimit); }
  }

  lemma GrainsFor(mp: Params, nb: nat)
    requires nb < LIMIT && ParamsOk(mp)
    ensures var size := AlignUp((nb + SYS_ALLOC_PADDING) % LIMIT, mp.granularity);
      && size < LIMIT && size % mp.page == 0
      && (size > nb ==> nb + SYS_ALLOC_PADDING <= size && LeastMultiple(size, nb + SYS_ALLOC_PADDING, mp.granularity))
  {
    hide PowerOfTwo, AlignUp;
    PaddingExact(nb, SYS_ALLOC_PADDING, mp.granularity);
    DividesTrans(AlignUp((nb + SYS_ALLOC_PADDING) % LIMIT, mp.granularity), mp.granularity, mp.page);
  }

  lemma JoinedThere(segs: seq<Segment>, segs': seq<Segment>, s: Spare, mapped: set<int>, mapped': set<int>, least: int,
                    least': int, check: nat, check': nat, threshold: nat, b: int, size: int)
    requires size > 0 && mapped' == mapped + Bytes(b, size) && Joined(segs, segs', s, b, size)
    requires least' == LeastSeen(least, b) && check' == if InFront(segs, s, b, size) then check else threshold
    ensures GrantJoined(segs, segs', s, mapped, mapped', least, least', check, check', threshold, size)
  {
    hide Joined, InFront, Bytes;
  }

  /** What a grant of so many bytes, wherever it is, has done to segments, lowest address and trimming threshold. */
  ghost predicate GrantJoined(segs: seq<Segment>, segs': seq<Segment>, s: Spare, mapped: set<int>, mapped': set<int>,
                              least: int, least': int, check: nat, check': nat, threshold: nat, size: int) {
    size > 0 && exists b {:trigger Joined(segs, segs', s, b, size)} ::
      && mapped' == mapped + Bytes(b, size) && Joined(segs, segs', s, b, size) && least' == LeastSeen(least, b)
      && check' == if InFront(segs, s, b, size) then check else threshold
  }

  /** The part of sys_alloc that extends the segments. */
  method ExtendHeap(m: MState, nb: nat) returns (p: int)
    requires m.Valid() && Asked(nb)
    modifies m`least, m`segs, m`releaseChecks, m`word, m`top, m`topsize, m`dv, m`dvsize, m`trimCheck, m`footprint
    modifies m`maxFootprint
    modifies m`L, m`smallmap, m`treemap, m`treebins, m`g, m.os
    ensures m.Valid()
    ensures m.trimCheck == old(m.trimCheck) || m.trimCheck == m.mp.trimThreshold
    ensures p == 0 ==>
      && m.os.mapped == old(m.os.mapped) && m.footprint == old(m.footprint)
      && m.L == old(m.L) && m.segs == old(m.segs) && m.word == old(m.word) && m.Spares() == old(m.Spares())
      && m.g == old(m.g)
    ensures m.os.kept == old(m.os.kept) && m.os.refusals >= old(m.os.refusals)
    ensures p == 0 <==>
      Barred(m.mp, old(m.footprint), m.footprintLimit, nb) || m.os.refusals > old(m.os.refusals)
    ensures p != 0 ==>
      && p > 0 && p !in Live(old(m.L), old(m.segs)) && Live(m.L, m.segs) == Live(old(m.L), old(m.segs))[p := nb]
      && nb != LIMIT - 1 && (m.footprintLimit != 0 ==> m.footprint <= m.footprintLimit)
      && LeastMultiple(m.footprint - old(m.footprint), nb + SYS_ALLOC_PADDING, m.mp.granularity)
      && GrantJoined(old(m.segs), m.segs, old(m.Spares()), old(m.os.mapped), m.os.mapped, old(m.least), m.least,
                     old(m.trimCheck), m.trimCheck, m.mp.trimThreshold, m.footprint - old(m.footprint))
    ensures m.maxFootprint == Peak(old(m.maxFootprint), m.footprint)
    ensures Undisturbed(old(m.word), m.word, old(m.L), m.mm)
  {
    hide MState.HeapValid, MState.BooksValid, BooksOk, Undisturbed, Live, AlignUp, WithinLimit, Fresh, Barred, Joined,
      LeastMultiple, GrantJoined, Peak, InFront, LeastSeen;
    SafeNow(m.word, m.L, m.mm);
    BeforeMapping(m);
    BarredIs(m, nb);
    GrainsFor(m.mp, nb);
    p := 0;
    var size := AlignUp((nb + SYS_ALLOC_PADDING) % LIMIT, m.mp.granularity);
    if size <= nb || !WithinLimit(m.footprint, size, m.footprintLimit) { return; }
    LimitExact(m.footprint, size, m.footprintLimit);
    ghost var mapped, segs, s, least, check := m.os.mapped, m.segs, m.Spares(), m.least, m.trimCheck;
    var b := AskPages(m, size);
    if b != FAIL {
      p := UseGrant(m, b, size, nb, mapped);
      JoinedThere(segs, m.segs, s, mapped, m.os.mapped, least, m.least, check, m.trimCheck, m.mp.trimThreshold, b,
                  size);
    }
  }

  /** sys_alloc. It fails only without having got anything from the system, so a grant is never lost. */
  method SysAlloc(m: MState, nb: nat) returns (p: int)
    requires m.Valid() && Asked(nb)
    modifies m`least, m`segs, m`releaseChecks, m`word, m`top, m`topsize, m`dv, m`dvsize, m`trimCheck, m`footprint
    modifies m`maxFootprint
    modifies m`L, m`smallmap, m`treemap, m`treebins, m`g, m`mm, m.os
    ensures m.Valid()
    ensures m.trimCheck == old(m.trimCheck) || m.trimCheck == m.mp.trimThreshold
    ensures p == 0 ==>
      && m.os.mapped == old(m.os.mapped) && m.footprint == old(m.footprint) && m.mm == old(m.mm)
      && m.L == old(m.L) && m.segs == old(m.segs) && m.word == old(m.word) && m.Spares() == old(m.Spares())
      && m.g == old(m.g)
    ensures m.os.kept == old(m.os.kept)
    ensures p == 0 ==> Barred(m.mp, m.footprint, m.footprintLimit, nb) || m.os.refusals > old(m.os.refusals)
    ensures p in m.mm && p !in old(m.mm) <==>
      && nb >= m.mp.mmapThreshold && old(m.topsize) != 0 && m.os.refusals == old(m.os.refusals)
      && !DirectBarred(m.mp, old(m.footprint), m.footprintLimit, nb)
    ensures p != 0 && p in m.mm ==>
      && p !in old(m.mm) && m.mm == old(m.mm)[p := m.mm[p]] && m.mm[p].base == p
      && p + nb + 16 < m.mm[p].base + m.mm[p].size - MMAP_FOOT_PAD
      && m.L == old(m.L) && m.segs == old(m.segs) && nb >= m.mp.mmapThreshold
      && m.footprint == old(m.footprint) + m.mm[p].size
      && LeastMultiple(m.mm[p].size, nb + MMAP_PADDING, m.mp.page)
    ensures p != 0 && p !in m.mm ==>
      && m.mm == old(m.mm) && p !in Live(old(m.L), old(m.segs))
      && Live(m.L, m.segs) == Live(old(m.L), old(m.segs))[p := nb]
      && LeastMultiple(m.footprint - old(m.footprint), nb + SYS_ALLOC_PADDING, m.mp.granularity)
      && GrantJoined(old(m.segs), m.segs, old(m.Spares()), old(m.os.mapped), m.os.mapped, old(m.least), m.least,
                     old(m.trimCheck), m.trimCheck, m.mp.trimThreshold, m.footprint - old(m.footprint))
    ensures m.maxFootprint == Peak(old(m.maxFootprint), m.footprint)
    ensures p != 0 ==> p > 0 && nb != LIMIT - 1 && (m.footprintLimit != 0 ==> m.footprint <= m.footprintLimit)
    ensures Undisturbed(old(m.word), m.word, old(m.L), old(m.mm))
  {
    hide MState.HeapValid, BooksOk, Undisturbed, Live, ParamsOk, Asked, Barred, DirectBarred, LeastMultiple,
      GrantJoined;
    ZeroNotDirect(m);
    p := 0;
    if nb >= m.mp.mmapThreshold && m.topsize != 0 {
      AskedBelow(nb);
      p := MmapAlloc(m, nb);
    }
    if p == 0 {
      p := ExtendHeap(m, nb);
      if p != 0 { LiveNotDirect(m, p); }
    }
  }

  lemma ZeroNotDirect(m: MState)
    requires m.Valid()
    ensures 0 !in m.mm
  {
    hide MState.HeapValid;
    assert 0 in m.mm ==> MappedChunk(m.word, 0, m.mm[0]);
  }

  lemma AskedBelow(nb: nat) requires Asked(nb) ensures nb < LIMIT {}

  /** A live chunk of a segment is not a directly mapped one. */
  lemma LiveNotDirect(m: MState, p: int)
    requires m.Valid() && p in Live(m.L, m.segs)
    ensures p !in m.mm
  {
    ChunkNotDirect(m.word, m.os.mapped, m.L, m.segs, m.Spares(), m.mm, m.mp.page, m.least, p);
  }

  lemma ChunkNotDirect(w: Memory, mapped: set<int>, L: Layout, segs: seq<Segment>, s: Spare, mm: map<int, Region>,
                       page: nat, least: int, p: int)
    requires LayoutOk(L, segs, s) && BooksOk(w, mapped, segs, mm, page, least) && p in L
    ensures p !in mm
  {
    hide Coalesced, AllFollowed, Based, MinSized, Recorded, Paged, Accounted, Bounded;
    assert p in mm ==> MappedChunk(w, p, mm[p]);
    assert Contained(segs, p, End(L, p));
    var k: nat :| Within(segs, k, p, End(L, p));
    Bounds(segs, k);
  }

  // ------------------------------------------------------------- who holds what

  /** The caller that holds chunk p holds word a. */
  ghost predicate Has(L: Layout, segs: seq<Segment>, mm: map<int, Region>, p: int, a: int)
  { (p in Live(L, segs) && InPayload(L, p, a)) || InMappedPayload(mm, p, a) }

  /** Every word held by anyone but the holder of x is as it was, and still held. */
  ghost predicate KeptBut(w: Memory, w': Memory, L: Layout, segs: seq<Segment>, mm: map<int, Region>,
                          L': Layout, segs': seq<Segment>, mm': map<int, Region>, x: int)
  { forall p, a :: p != x && Has(L, segs, mm, p, a) ==> Has(L', segs', mm', p, a) && Rd(w', a) == Rd(w, a) }

  /** Every word held by anyone is as it was, and still held. */
  ghost predicate KeptAll(w: Memory, w': Memory, L: Layout, segs: seq<Segment>, mm: map<int, Region>,
                          L': Layout, segs': seq<Segment>, mm': map<int, Region>)
  { forall p, a :: Has(L, segs, mm, p, a) ==> Has(L', segs', mm', p, a) && Rd(w', a) == Rd(w, a) }

  lemma HasSize(L: Layout, segs: seq<Segment>, p: int, a: int)
    ensures p in Live(L, segs) ==> (InPayload(L, p, a) <==> p + 16 <= a < p + Live(L, segs)[p] + 8)
  {}

  lemma KeptFrom(w: Memory, w': Memory, L: Layout, segs: seq<Segment>, mm: map<int, Region>,
                 L': Layout, segs': seq<Segment>, mm': map<int, Region>, x: int)
    requires forall p :: p != x && p in Live(L, segs) ==> p in Live(L', segs') && Live(L', segs')[p] == Live(L, segs)[p]
    requires forall p :: p != x && p in mm ==> p in mm' && mm'[p] == mm[p]
    requires Undisturbed(w, w', L, mm) || Undisturbed(w, w', L', mm')
    ensures KeptBut(w, w', L, segs, mm, L', segs', mm', x)
  {
    forall p, a | p != x && Has(L, segs, mm, p, a) ensures Has(L', segs', mm', p, a) && Rd(w', a) == Rd(w, a) {
      HasSize(L, segs, p, a);
      HasSize(L', segs', p, a);
    }
  }
}
