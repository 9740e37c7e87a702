/** memalign: aligned chunks, with the spare room at both ends given back. */
module Memalign {
  import opened Words
  import opened Bits
  import opened Sizes
  import opened Bins
  import opened Layout
  import opened LayoutFacts
  import opened Heap
  import opened Merging
  import opened Splitting
  import opened Resizing
  import opened Accounts
  import opened Books
  import opened State
  import opened Freeing
  import opened Malloc
  import opened Direct
  import opened Growing
  import opened Checks
  import opened Dlmalloc
  import opened Realloc

  lemma HalfPower() ensures Pow2(63) == HALF && Pow2(4) == 16 && Pow2(5) == 32
  {
    Pow2Values();
    Pow2Add(31, 32);
    Pow2Add(15, 16);
  }

  /** The least power of two from the alignment and 32 up. */
  ghost predicate Rounded(alignment: nat, a: nat) {
    && PowerOfTwo(a) && alignment <= a && MIN_CHUNK_SIZE <= a
    && forall x :: PowerOfTwo(x) && alignment <= x && MIN_CHUNK_SIZE <= x ==> a <= x
  }

  /** The alignment memalign works with: the least power of two from the given value and 32 up. */
  method RoundAlignment(alignment: nat) returns (a: nat)
    requires alignment <= HALF
    ensures Rounded(alignment, a) && PowerOfTwo(a) && alignment <= a <= HALF && MIN_CHUNK_SIZE <= a && a % 16 == 0
  {
    hide Pow2;
    a := if alignment < MIN_CHUNK_SIZE then MIN_CHUNK_SIZE else alignment;
    HalfPower();
    if PowerOfTwo(a) {
      ghost var j := PowerLog(a);
      Multiple16(j);
      return;
    }
    ghost var k := 5;
    a := 32;
    PowerIs(5);
    while a < alignment
      invariant a == Pow2(k) && 32 <= a <= HALF && PowerOfTwo(a)
      invariant forall x :: PowerOfTwo(x) && alignment <= x ==> a <= x
      decreases HALF - a
    {
      forall x | PowerOfTwo(x) && alignment <= x ensures 2 * a <= x {
        var j := PowerLog(x);
        PowerGap(k, j);
      }
      PowerIs(63);
      PowerIs(k + 1);
      Pow2Step(k);
      k := k + 1;
      a := Shl1(a);
    }
    Multiple16(k);
  }

  lemma Multiple16(k: nat)
    requires Pow2(k) >= 16
    ensures Pow2(k) % 16 == 0
  {
    HalfPower();
    if k < 4 { Pow2Mono(k + 1, 4); } else { Pow2Add(4, k - 4); ProductOf16(Pow2(k - 4)); }
  }

  lemma ProductOf16(x: nat) ensures (16 * x) % 16 == 0 {}

  /** Beyond 2^63 the rounding loop would never end: doubling 32 within 64 bits never reaches the alignment. */
  lemma {:induction false} RoundingStuck(alignment: nat, n: nat)
    requires HALF < alignment
    ensures Shl(32, n) < alignment
  {
    DoublingBound(n);
  }

  lemma {:induction false} DoublingBound(n: nat)
    ensures Shl(32, n) <= HALF && (Shl(32, n) == 0 || (n <= 58 && Shl(32, n) == Pow2(n + 5)))
  {
    HalfPower();
    if n > 0 {
      DoublingBound(n - 1);
      if n <= 58 { Pow2Mono(n + 5, 63); } else if n - 1 == 58 { assert Shl(32, 58) == 0 || Shl(32, 58) == HALF; }
    }
  }

  // ------------------------------------------------------------- where the chunk goes

  /** An aligned place for the payload that leaves room for a chunk in front. */
  function AlignedChunk(p: int, a: nat): int requires a > 0 && p > 0 {
    var br := AlignUp(Mem(p), a) - 16;
    if br - p >= MIN_CHUNK_SIZE then br else br + a
  }

  /** The leader can be a chunk and is less than the alignment and a minimal chunk together. */
  lemma AlignedPlace(p: int, a: nat)
    requires a >= MIN_CHUNK_SIZE && a % 16 == 0 && p > 0 && p % 16 == 0 && Mem(p) + a < LIMIT && Mem(p) % a != 0
    ensures var q := AlignedChunk(p, a);
      Mem(q) % a == 0 && MIN_CHUNK_SIZE <= q - p < a + MIN_CHUNK_SIZE && (q - p) % 16 == 0
  {
    hide AlignUp;
    var up, q := AlignUp(Mem(p), a), AlignedChunk(p, a);
    UpFacts(Mem(p), a);
    assert Mem(q) == up || Mem(q) == up + a;
    Apart16(p, up, a);
  }

  lemma Apart16(p: int, up: int, a: int)
    requires p % 16 == 0 && up % 16 == 0 && a % 16 == 0
    ensures (up - 16 - p) % 16 == 0 && (up - 16 + a - p) % 16 == 0
  {}

  lemma UpFacts(x: nat, a: nat)
    requires a >= MIN_CHUNK_SIZE && a % 16 == 0 && x + a < LIMIT && x % a != 0
    ensures var up := AlignUp(x, a); up % a == 0 && (up + a) % a == 0 && x < up < x + a && up % 16 == 0
  {
    var up := AlignUp(x, a);
    assert up == (x + (a - 1)) - (x + (a - 1)) % a;
    DropRemainder(x + (a - 1), a);
    MultipleMod(1, a);
    SumMod(up, a, a);
    DividesTrans(up, a, 16);
  }

  // ------------------------------------------------------------- giving back the leader

  /** set_inuse on the second part and then on the first comes to the same. */
  lemma SplitInuseBack(w: Memory, L: Layout, segs: seq<Segment>, s: Spare, p: int, n: nat)
    requires LayoutOk(L, segs, s) && Tagged(w, L, s.top) && Splittable(L, segs, p, n)
    ensures SetInuse(SetInuse(w, p + n, L[p].size - n), p, n) == SplitTags(w, p, n, L[p].size, L[p].pinuse)
  {
    hide Coalesced, AllContained, Based, SegmentsApart, Recorded, MinSized, AllFollowed, Disjoint;
    HasNext(L, segs, s, p);
    var e := End(L, p);
    HeadFields(w, p, L[p]);
    HeadFields(w, e, L[e]);
    BackWords(w, p, n, L[p].size, L[p].pinuse);
  }

  lemma BackWords(w: Memory, p: int, n: nat, size: nat, pinuse: bool)
    requires 0 < n < size && n % 16 == 0 && size % 16 == 0 && Rd(w, HeadAt(p + size)) % 2 == 1
    requires Rd(w, HeadAt(p)) % 2 == if pinuse then 1 else 0
    ensures SetInuse(SetInuse(w, p + n, size - n), p, n) == SplitTags(w, p, n, size, pinuse)
  {
    hide SetInuse, SplitTags, Rd;
    var b := Rd(w, HeadAt(p + n)) % 2;
    var w1 := w[HeadAt(p + n) := b + (size - n) + 2];
    NextStays(w, p + n, size - n);
    EvenDifference(size, n);
    LowBit(b, size - n);
    FirstAfter(w, w1, p, n, size - n, b, pinuse);
  }

  /** When the next chunk's pinuse is set already, set_inuse writes one word. */
  lemma NextStays(w: Memory, q: int, n: nat)
    requires n > 0 && Rd(w, HeadAt(q + n)) % 2 == 1
    ensures SetInuse(w, q, n) == w[HeadAt(q) := Rd(w, HeadAt(q)) % 2 + n + 2]
  {
    assert HeadAt(q + n) in w;
  }

  lemma FirstAfter(w: Memory, w1: Memory, p: int, n: nat, rest: nat, b: int, pinuse: bool)
    requires n > 0 && 0 <= b < 2 && (b + rest + 2) % 2 == b && w1 == w[HeadAt(p + n) := b + rest + 2]
    requires Rd(w, HeadAt(p)) % 2 == if pinuse then 1 else 0
    ensures SetInuse(w1, p, n) == SplitTags(w, p, n, n + rest, pinuse)
  {
    var h := Rd(w, HeadAt(p)) % 2;
    assert Rd(w1, HeadAt(p)) == Rd(w, HeadAt(p));
    assert SetInuse(w1, p, n) == w1[HeadAt(p) := h + n + 2][HeadAt(p + n) := 1 + rest + 2];
    assert SplitTags(w, p, n, n + rest, pinuse) == w[HeadAt(p) := h + n + 2][HeadAt(p + n) := 1 + rest + 2];
  }

  lemma EvenDifference(x: int, y: int)
    requires x % 16 == 0 && y % 16 == 0
    ensures (x - y) % 2 == 0
  {
    var k := 8 * (x / 16 - y / 16);
    assert x - y == 2 * k;
    Twice(k);
  }

  lemma Twice(k: int) ensures (2 * k) % 2 == 0 {}

  lemma LowBit(b: int, size: int)
    requires 0 <= b < 2 && size % 2 == 0
    ensures (b + size + 2) % 2 == b
  {}

  method GiveBackLead(m: MState, p: int, lead: nat, rest: nat)
    requires m.HeapValid() && Splittable(m.L, m.segs, p, lead) && lead + rest == m.L[p].size
    modifies m`word, m`smallmap, m`treemap, m`treebins, m`g, m`dv, m`dvsize, m`top, m`topsize, m`L
    ensures m.HeapValid() && p + lead !in old(m.L) && Used(m.L) == (Used(old(m.L)) - {p})[p + lead := rest]
    ensures !IsRecord(m.segs, p + lead)
    ensures PayloadsKept(old(m.word), m.word, old(m.L), m.L, m.segs)
  {
    hide Structured, Threaded, Mapped, LayoutOk, Tagged, Indexed, PayloadSafe, PayloadsKept, Used, SplitTags, SetInuse,
      Split;
    ghost var w, L := m.word, m.L;
    SplitInuseBack(w, L, m.segs, m.Spares(), p, lead);
    SplitState(w, L, m.segs, m.Spares(), p, lead, m.g);
    m.word := SetInuse(SetInuse(m.word, p + lead, rest), p, lead);
    m.L := Split(L, p, lead);
    SafeEnds(w, m.word, L, m.L, m.segs, m.Spares());
    ghost var w1, L1 := m.word, m.L;
    SplitParts(L, p, lead);
    var fate, total := DisposeChunk(m, p, lead);
    LeadGone(w, w1, m.word, L, L1, m.L, m.segs, p, lead, rest);
  }

  lemma SplitParts(L: Layout, p: int, n: nat)
    requires p in L && 0 < n < L[p].size && L[p].inuse
    ensures p in Split(L, p, n) && Split(L, p, n)[p] == Chunk(n, true, L[p].pinuse)
  {}

  lemma LeadGone(w: Memory, w1: Memory, w2: Memory, L: Layout, L1: Layout, L2: Layout, segs: seq<Segment>, p: int,
                 lead: nat, rest: nat)
    requires p in L && L[p].inuse && lead > 0 && p + lead !in L
    requires Used(L1) == Used(L)[p := lead][p + lead := rest] && PayloadSafe(w, w1, L1, segs)
    requires Used(L2) == Used(L1) - {p} && PayloadsKept(w1, w2, L1, L2, segs)
    ensures Used(L2) == (Used(L) - {p})[p + lead := rest] && PayloadsKept(w, w2, L, L2, segs)
  {
    assert Used(L)[p := lead][p + lead := rest] - {p} == (Used(L) - {p})[p + lead := rest];
    forall u, a | InPayload(L, u, a) && InPayload(L2, u, a) ensures Rd(w2, a) == Rd(w, a) {
      assert u in Used(L2) && u in Used(L1) && Used(L1)[u] == Used(L2)[u];
      assert InPayload(L1, u, a);
    }
  }

  // ------------------------------------------------------------- memalign

  /** Resizing the chunk p, or moving it to p', leaves the other chunks and the books alone. */
  lemma AlignedBooks(w: Memory, w': Memory, mapped: set<int>, L: Layout, L': Layout, segs: seq<Segment>, mm: map<int,
                     Region>, page: nat, least: int, p: int, p': int, n: nat)
    requires BooksOk(w, mapped, segs, mm, page, least) && PayloadsKept(w, w', L, L', segs)
    requires p in L && L[p].inuse && !IsRecord(segs, p) && Used(L') == (Used(L) - {p})[p' := n]
    requires (p' == p || p' !in Used(L)) && !IsRecord(segs, p')
    ensures BooksOk(w', mapped, segs, mm, page, least) && KeptBut(w, w', L, segs, mm, L', segs, mm, p)
    ensures Live(L', segs) == (Live(L, segs) - {p})[p' := n]
  {
    KeptBooks(w, w', mapped, L, L', segs, mm, page, least);
    AlignedLive(L, L', segs, p, p', n);
    forall u, a | u != p && Has(L, segs, mm, u, a) ensures Has(L', segs, mm, u, a) && Rd(w', a) == Rd(w, a) {
      if u in Live(L, segs) && InPayload(L, u, a) {
        assert u in Used(L) && u in Used(L') && Used(L')[u] == Used(L)[u];
        assert InPayload(L', u, a) && u in Live(L', segs);
      }
    }
  }

  lemma AlignedLive(L: Layout, L': Layout, segs: seq<Segment>, p: int, p': int, n: nat)
    requires p in L && L[p].inuse && Used(L') == (Used(L) - {p})[p' := n] && !IsRecord(segs, p) && !IsRecord(segs, p')
    ensures Live(L', segs) == (Live(L, segs) - {p})[p' := n]
  {
    assert forall q :: q in L && L[q].inuse <==> q in Used(L);
    assert forall q :: q in L' && L'[q].inuse <==> q in Used(L');
  }

  /** The leader of a chunk of a segment is given back if the payload is not aligned. */
  method AlignLead(m: MState, p: int, a: nat) returns (q: int, ghost n: nat)
    requires m.Valid() && p in Live(m.L, m.segs) && a >= MIN_CHUNK_SIZE && a % 16 == 0 && p % 16 == 0
    requires Live(m.L, m.segs)[p] >= a + 2 * MIN_CHUNK_SIZE
    modifies m`word, m`smallmap, m`treemap, m`treebins, m`g, m`dv, m`dvsize, m`top, m`topsize, m`L
    ensures m.Valid() && q >= p > 0 && Mem(q) % a == 0 && n + a + MIN_CHUNK_SIZE > Live(old(m.L), m.segs)[p]
    ensures q !in m.mm
    ensures Live(m.L, m.segs) == (Live(old(m.L), m.segs) - {p})[q := n] && (q == p || q !in Live(old(m.L), m.segs))
    ensures KeptBut(old(m.word), m.word, old(m.L), m.segs, m.mm, m.L, m.segs, m.mm, p)
  {
    hide MState.HeapValid, BooksOk, PayloadsKept, ParamsOk, Used, KeptBut, AlignedChunk;
    ghost var w, L := m.word, m.L;
    KeptStill(w, L, m.segs, m.mm, p);
    LiveFacts(m, p);
    HeadTells(m, p);
    q, n := p, m.L[p].size;
    if Mem(p) % a != 0 {
      AlignedPlace(p, a);
      q := AlignedChunk(p, a);
      var lead := q - p;
      var rest := ChunkSize(m.word, p) - lead;
      GiveBackLead(m, p, lead, rest);
      n := rest;
      LeadUsed(L, m.L, p, q);
      AlignedBooks(w, m.word, m.os.mapped, L, m.L, m.segs, m.mm, m.mp.page, m.least, p, q, rest);
    } else {
      LiveUpdate(L, m.segs, p);
    }
    LiveNotDirect(m, q);
  }

  lemma LeadUsed(L: Layout, L': Layout, p: int, q: int) requires q !in L ensures q !in Used(L) {}

  lemma LiveUpdate(L: Layout, segs: seq<Segment>, p: int)
    requires p in Live(L, segs)
    ensures Live(L, segs) == (Live(L, segs) - {p})[p := L[p].size]
  {}

  lemma LiveFacts(m: MState, p: int)
    requires m.Valid() && p in Live(m.L, m.segs)
    ensures p in m.L && m.L[p].inuse && !IsRecord(m.segs, p) && p > 0 && p % 16 == 0 && m.L[p].size % 16 == 0
    ensures p + m.L[p].size < LIMIT
    ensures p !in m.mm
  {
    hide Structured, Threaded, Mapped, Indexed, Coalesced, MinSized, Recorded, Tagged;
    LiveNotDirect(m, p);
    ChunkBound(m.L, m.segs, p);
  }

  /** Spare room at the end is given back if it is more than a minimal chunk. */
  method AlignTail(m: MState, p: int, nb: nat) returns (ghost n: nat)
    requires m.Valid() && p in Live(m.L, m.segs) && nb % 16 == 0 && MIN_CHUNK_SIZE <= nb <= Live(m.L, m.segs)[p]
    modifies m`word, m`smallmap, m`treemap, m`treebins, m`g, m`dv, m`dvsize, m`top, m`topsize, m`L
    ensures m.Valid() && nb <= n <= nb + MIN_CHUNK_SIZE && Live(m.L, m.segs) == Live(old(m.L), m.segs)[p := n]
    ensures KeptBut(old(m.word), m.word, old(m.L), m.segs, m.mm, m.L, m.segs, m.mm, p)
  {
    hide MState.HeapValid, BooksOk, PayloadsKept, ParamsOk, Used, KeptBut;
    ghost var w, L := m.word, m.L;
    KeptStill(w, L, m.segs, m.mm, p);
    LiveFacts(m, p);
    HeadTells(m, p);
    LiveUpdate(L, m.segs, p);
    var size := ChunkSize(m.word, p);
    n := size;
    if size > nb + MIN_CHUNK_SIZE {
      GiveBackTail(m, p, nb, size - nb);
      n := nb;
      UsedUpdate(L, m.L, p, nb);
      AlignedBooks(w, m.word, m.os.mapped, L, m.L, m.segs, m.mm, m.mp.page, m.least, p, p, nb);
    }
  }

  lemma UsedUpdate(L: Layout, L': Layout, p: int, n: nat)
    requires Used(L') == Used(L)[p := n]
    ensures Used(L') == (Used(L) - {p})[p := n]
  {}

  /** A directly mapped chunk only moves its offset. */
  method DirectLead(m: MState, p: int, lead: nat)
    requires m.Valid() && p in m.mm && lead % 16 == 0 && p + lead + LEAST_REGION <= m.mm[p].base + m.mm[p].size
    requires lead > 0
    modifies m`word, m`mm
    ensures m.Valid() && p + lead !in old(m.mm) && m.mm == (old(m.mm) - {p})[p + lead := old(m.mm[p])]
    ensures KeptBut(old(m.word), m.word, m.L, m.segs, old(m.mm), m.L, m.segs, m.mm, p)
  {
    hide Structured, Threaded, Mapped, LayoutOk, Tagged, Indexed, BooksOk, ParamsOk, KeptBut, Elsewhere;
    DirectMoved(m.word, m.os.mapped, m.L, m.segs, m.Spares(), m.mm, m.mp.page, m.least, p, lead);
    DirectWords2(m.word, m.mm, m.os.mapped, m.segs, m.mp.page, m.least, p);
    var q := p + lead;
    var w := m.word[FootAt(q) := Rd(m.word, FootAt(p)) + lead][HeadAt(q) := ChunkSize(m.word, p) - lead];
    ElsewhereKeeps(m.word, w, m.L, m.segs, m.Spares(), m.g);
    m.word := w;
    m.mm := (m.mm - {p})[q := m.mm[p]];
  }

  lemma DirectWords2(w: Memory, mm: map<int, Region>, mapped: set<int>, segs: seq<Segment>, page: nat, least: int,
                     p: int)
    requires BooksOk(w, mapped, segs, mm, page, least) && p in mm
    ensures ChunkSize(w, p) == Rd(w, HeadAt(p))
  {
    assert MappedChunk(w, p, mm[p]);
    Plain(Rd(w, HeadAt(p)), mm[p].base + mm[p].size, p);
  }

  /** The words that memalign writes in a directly mapped chunk. */
  function LeadTags(w: Memory, p: int, lead: nat): Memory
  { w[FootAt(p + lead) := Rd(w, FootAt(p)) + lead][HeadAt(p + lead) := Rd(w, HeadAt(p)) - lead] }

  lemma DirectMoved(w: Memory, mapped: set<int>, L: Layout, segs: seq<Segment>, s: Spare, mm: map<int, Region>,
                    page: nat, least: int, p: int, lead: nat)
    requires LayoutOk(L, segs, s) && BooksOk(w, mapped, segs, mm, page, least)
    requires p in mm && lead % 16 == 0 && p + lead + LEAST_REGION <= mm[p].base + mm[p].size && lead > 0
    ensures var w', mm' := LeadTags(w, p, lead), (mm - {p})[p + lead := mm[p]];
      && p + lead !in mm && BooksOk(w', mapped, segs, mm', page, least) && Elsewhere(w, w', segs)
      && KeptBut(w, w', L, segs, mm, L, segs, mm', p)
  {
    hide LayoutOk, BooksOk;
    var w', mm', q := LeadTags(w, p, lead), (mm - {p})[p + lead := mm[p]], p + lead;
    LeadInside(w, mapped, segs, mm, page, least, p, lead);
    MovedRegions(w, w', mapped, segs, mm, mm', page, least, p, lead);
    forall a | Rd(w', a) != Rd(w, a)
      ensures a >= 0 && !InSegs(segs, a)
    {
      RegionAway(w, mapped, segs, mm, page, least, p, a);
    }
    forall u, a | u != p && Has(L, segs, mm, u, a) ensures Has(L, segs, mm', u, a) && Rd(w', a) == Rd(w, a) {
      if Rd(w', a) != Rd(w, a) { HoldersDiffer(w, mapped, L, segs, s, mm, page, least, p, u, a); }
      if InMappedPayload(mm, u, a) { assert u in mm' && mm'[u] == mm[u]; }
    }
  }

  /** The words written are payload of the chunk itself. */
  lemma LeadInside(w: Memory, mapped: set<int>, segs: seq<Segment>, mm: map<int, Region>, page: nat, least: int, p: int,
                   lead: nat)
    requires BooksOk(w, mapped, segs, mm, page, least)
    requires p in mm && lead % 16 == 0 && p + lead + LEAST_REGION <= mm[p].base + mm[p].size && lead > 0
    ensures p + lead !in mm && forall a :: Rd(LeadTags(w, p, lead), a) != Rd(w, a) ==> InMappedPayload(mm, p, a)
  {
    assert MappedChunk(w, p, mm[p]);
    assert p + lead in mm ==> MappedChunk(w, p + lead, mm[p + lead]);
  }

  lemma RegionAway(w: Memory, mapped: set<int>, segs: seq<Segment>, mm: map<int, Region>, page: nat, least: int, p: int,
                   a: int)
    requires BooksOk(w, mapped, segs, mm, page, least) && InMappedPayload(mm, p, a)
    ensures a >= 0 && !InSegs(segs, a)
  {
    assert MappedChunk(w, p, mm[p]);
    forall k | 0 <= k < |segs| ensures !(segs[k].base <= a < segs[k].base + segs[k].size) {
      assert Beside(mm[p].base, mm[p].size, segs[k].base, segs[k].size);
    }
  }

  lemma MovedRegions(w: Memory, w': Memory, mapped: set<int>, segs: seq<Segment>, mm: map<int, Region>, mm': map<int,
                     Region>, page: nat, least: int, p: int, lead: nat)
    requires BooksOk(w, mapped, segs, mm, page, least) && w' == LeadTags(w, p, lead)
    requires p in mm && lead % 16 == 0 && p + lead + LEAST_REGION <= mm[p].base + mm[p].size && lead > 0
    requires p + lead !in mm
    requires mm' == (mm - {p})[p + lead := mm[p]]
    ensures BooksOk(w', mapped, segs, mm', page, least)
  {
    hide MappedChunks, RegionsApart, Accounted, Paged, Bounded, LeadTags;
    MovedAccounts(mapped, segs, mm, mm', p, p + lead);
    MovedPlaces(segs, mm, mm', page, least, p, p + lead);
    MovedChunks(w, w', segs, mm, mm', p, lead);
  }

  lemma MovedChunks(w: Memory, w': Memory, segs: seq<Segment>, mm: map<int, Region>, mm': map<int, Region>, p: int,
                    lead: nat)
    requires MappedChunks(w, mm) && RegionsApart(mm, segs) && w' == LeadTags(w, p, lead)
    requires p in mm && lead % 16 == 0 && p + lead + LEAST_REGION <= mm[p].base + mm[p].size && lead > 0
    requires p + lead !in mm
    requires mm' == (mm - {p})[p + lead := mm[p]]
    ensures MappedChunks(w', mm')
  {
    var q := p + lead;
    assert MappedChunk(w, p, mm[p]);
    assert MappedChunk(w', q, mm[p]) by { Apart16(0, p, lead); }
    forall r | r in mm' ensures MappedChunk(w', r, mm'[r]) {
      if r != q {
        assert MappedChunk(w, r, mm[r]) && Beside(mm[r].base, mm[r].size, mm[p].base, mm[p].size);
      }
    }
  }

  lemma MovedAccounts(mapped: set<int>, segs: seq<Segment>, mm: map<int, Region>, mm': map<int, Region>, p: int, q: int)
    requires Accounted(mapped, segs, mm) && p in mm && q !in mm && mm' == (mm - {p})[q := mm[p]]
    ensures Accounted(mapped, segs, mm')
  {
    forall a ensures InRegions(mm', a) <==> InRegions(mm, a) {
      if InRegions(mm, a) {
        var r :| r in mm && mm[r].base <= a < mm[r].base + mm[r].size;
        var r' := if r == p then q else r;
        assert r' in mm' && mm'[r'] == mm[r];
      }
      if InRegions(mm', a) {
        var r :| r in mm' && mm'[r].base <= a < mm'[r].base + mm'[r].size;
        var r' := if r == q then p else r;
        assert r' in mm && mm[r'] == mm'[r];
      }
    }
  }

  lemma MovedPlaces(segs: seq<Segment>, mm: map<int, Region>, mm': map<int, Region>, page: nat, least: int, p: int,
                    q: int)
    requires RegionsApart(mm, segs) && page > 0 && Paged(page, segs, mm) && Bounded(least, segs, mm)
    requires p in mm && q !in mm && mm' == (mm - {p})[q := mm[p]]
    ensures RegionsApart(mm', segs) && Paged(page, segs, mm') && Bounded(least, segs, mm')
  {
    forall r | r in mm' ensures (if r == q then p else r) in mm && mm'[r] == mm[if r == q then p else r] {}
  }

  /** Aligning a directly mapped chunk. */
  method AlignDirect(m: MState, p: int, a: nat, nb: nat) returns (q: int)
    requires m.Valid() && p in m.mm && p == m.mm[p].base && nb >= MIN_CHUNK_SIZE
    requires PowerOfTwo(a) && a >= MIN_CHUNK_SIZE && a % 16 == 0
    requires Mem(p) + nb + a + MIN_CHUNK_SIZE < m.mm[p].base + m.mm[p].size - MMAP_FOOT_PAD
    modifies m`word, m`mm
    ensures m.Valid() && q > 0 && Mem(q) % a == 0 && q in m.mm && m.mm == (old(m.mm) - {p})[q := old(m.mm[p])]
    ensures (q == p || q !in old(m.mm))
    ensures Mem(q) + nb < m.mm[q].base + m.mm[q].size - MMAP_FOOT_PAD
    ensures KeptBut(old(m.word), m.word, m.L, m.segs, old(m.mm), m.L, m.segs, m.mm, p)
  {
    hide MState.HeapValid, BooksOk, ParamsOk, KeptBut, AlignedChunk, PowerOfTwo;
    KeptStill(m.word, m.L, m.segs, m.mm, p);
    DirectFacts(m, p);
    q := p;
    if Mem(p) % a != 0 {
      AlignedPlace(p, a);
      q := AlignedChunk(p, a);
      AlignedRoom(m, p, q, a);
      DirectLead(m, p, q - p);
    }
  }

  /** Page size and alignment are powers of two, so what is left of the pages after the leader is not small. */
  lemma AlignedRoom(m: MState, p: int, q: int, a: nat)
    requires m.Valid() && p in m.mm && p == m.mm[p].base && PowerOfTwo(a) && q < p + a + MIN_CHUNK_SIZE
    requires a < m.mm[p].size
    ensures q + LEAST_REGION <= p + m.mm[p].size
  {
    hide MState.HeapValid, PowerOfTwo;
    PowerRoom(a, m.mp.page, m.mm[p].size);
  }

  lemma PowerRoom(a: nat, page: nat, size: nat)
    requires PowerOfTwo(a) && PowerOfTwo(page) && page >= 4096 && size % page == 0 && a < size
    ensures a + 2048 <= size
  {
    hide PowerOfTwo;
    var j := PowerLog(a);
    var k := PowerLog(page);
    if a < page {
      PowerGap(j, k);
      AtLeastOne(size, page);
    } else {
      PowerDivides(j, k);
      hide Pow2;
      DiffMod(size, a, page);
      AtLeastOne(size - a, page);
    }
  }

  lemma PowerDivides(j: nat, k: nat)
    requires Pow2(k) <= Pow2(j)
    ensures Pow2(k) > 0 && Pow2(j) % Pow2(k) == 0
  {
    if j < k { PowerBelow(j, k); }
    Pow2Add(j - k, k);
    var g := Pow2(k);
    hide Pow2;
    MultipleMod(Pow2(j - k), g);
  }

  lemma PowerBelow(j: nat, k: nat)
    requires j < k
    ensures Pow2(j) < Pow2(k)
  {
    Pow2Mono(j + 1, k);
  }

  lemma DirectFacts(m: MState, p: int)
    requires m.Valid() && p in m.mm
    ensures p > 0 && p % 16 == 0 && m.mm[p].base + m.mm[p].size < LIMIT
  {
    hide MState.HeapValid;
    assert MappedChunk(m.word, p, m.mm[p]);
  }

  /** The request memalign makes: enough to find an aligned place for the chunk behind a chunk of its own. */
  function Widened(bytes: nat, a: nat): int { Request2Size(bytes) + a + MIN_CHUNK_SIZE - 8 }

  lemma WidenedIs(bytes: nat, a: nat) ensures Widened(bytes, a) == Request2Size(bytes) + a + MIN_CHUNK_SIZE - 8 {}

  /** memalign. The result is aligned to the power of two that alignment rounds up to. */
  method DlMemalign(m: MState, alignment: nat, bytes: nat) returns (mem: int, ghost a: nat)
    requires m.Valid() && alignment <= HALF && bytes < LIMIT
    modifies m`least, m`segs, m`releaseChecks, m`word, m`top, m`topsize, m`dv, m`dvsize, m`trimCheck, m`footprint
    modifies m`maxFootprint
    modifies m`L, m`smallmap, m`treemap, m`treebins, m`g, m`mm, m.os
    ensures m.Valid() && Rounded(alignment, a)
    ensures mem == 0 ==> m.L == old(m.L) && m.segs == old(m.segs) && m.mm == old(m.mm) && m.word == old(m.word)
    ensures mem == 0 ==>
      || bytes >= MAX_REQUEST - a
      || Barred(m.mp, m.footprint, m.footprintLimit, Padded(Widened(bytes, a)))
      || m.os.refusals > old(m.os.refusals)
    ensures
      && bytes < MAX_REQUEST - a && Widened(bytes, a) < MAX_REQUEST
      && old(Findable(m.g, m.L, m.Spares(), Padded(Widened(bytes, a)))) ==>
      && mem != 0 && m.os.mapped == old(m.os.mapped) && m.os.refusals == old(m.os.refusals)
      && m.footprint == old(m.footprint) && m.segs == old(m.segs) && mem - 16 !in m.mm
    ensures mem != 0 ==>
      && mem % a == 0 && Room(m.L, m.segs, m.mm, mem - 16, bytes)
      && KeptAll(old(m.word), m.word, old(m.L), old(m.segs), old(m.mm), m.L, m.segs, m.mm)
    ensures mem != 0 && mem - 16 !in m.mm ==>
      && m.mm == old(m.mm) && mem - 16 !in Live(old(m.L), old(m.segs)) && mem - 16 in Live(m.L, m.segs)
      && Live(m.L, m.segs) == Live(old(m.L), old(m.segs))[mem - 16 := Live(m.L, m.segs)[mem - 16]]
      && Live(m.L, m.segs)[mem - 16] <= Request2Size(bytes) + MIN_CHUNK_SIZE
    ensures mem != 0 && mem - 16 in m.mm ==>
      && Live(m.L, m.segs) == Live(old(m.L), old(m.segs)) && mem - 16 !in old(m.mm)
      && m.mm == old(m.mm)[mem - 16 := m.mm[mem - 16]]
    ensures Heeded(old(m.footprint), m.footprint, m.footprintLimit)
  {
    hide MState.HeapValid, BooksOk, ParamsOk, KeptBut, KeptAll, KeptMoved, Gained, Room, Live, PowerOfTwo, Request2Size,
      Padded, MallocedChunkOk, NothingFits, Barred, Findable, ByPolicy, Rounded, GrantSized, Widened;
    ghost var w, L, segs, mm := m.word, m.L, m.segs, m.mm;
    mem := 0;
    var al := RoundAlignment(alignment);
    a := al;
    if bytes < MAX_REQUEST - al {
      RequestFits(bytes);
      var nb := Request2Size(bytes);
      var req := Widened(bytes, al);
      WidenedIs(bytes, al);
      mem := DlMalloc(m, req);
      if mem != 0 {
        ghost var w1, L1, segs1, mm1 := m.word, m.L, m.segs, m.mm;
        var p := mem - 16;
        RequestFits(req);
        GotSpace(m, L, segs, mm, p, req);
        HeadTells(m, p);
        if p in Live(m.L, m.segs) { LiveNotDirect(m, p); }
        var q;
        if Rd(m.word, HeadAt(p)) % 4 == 0 {
          q := AlignDirect(m, p, al, nb);
          DirectDone(w, w1, m.word, L, segs, mm, L1, segs1, mm1, m.mm, p, q, bytes, nb);
        } else {
          ghost var n;
          q, n := AlignHeap(m, p, al, nb);
          HeapDone(w, w1, m.word, L, segs, mm, L1, m.L, m.segs, p, q, n, bytes, nb);
        }
        mem := Mem(q);
      }
    }
  }

  lemma GotSpace(m: MState, L: Layout, segs: seq<Segment>, mm: map<int, Region>, p: int, req: nat)
    requires req < MAX_REQUEST && Gained(Live(L, segs), Live(m.L, m.segs), mm, m.mm, p, Padded(req))
    ensures p in Live(m.L, m.segs) || p in m.mm
    ensures p !in m.mm ==>
      && p !in Live(L, segs) && m.mm == mm && p in Live(m.L, m.segs)
      && Live(m.L, m.segs) == Live(L, segs)[p := Live(m.L, m.segs)[p]] && Live(m.L, m.segs)[p] >= req + 8
    ensures p in m.mm ==>
      && p !in mm && Live(m.L, m.segs) == Live(L, segs) && m.mm == mm[p := m.mm[p]] && m.mm[p].base == p
      && Mem(p) + req + 8 < m.mm[p].base + m.mm[p].size - MMAP_FOOT_PAD
  {
    hide Live;
    RequestFits(req);
  }

  lemma LivePlace(m: MState, p: int)
    requires m.Valid() && p in Live(m.L, m.segs)
    ensures p % 16 == 0
  {
    LiveFacts(m, p);
  }

  lemma HeapDone(w: Memory, w1: Memory, w3: Memory, L: Layout, segs: seq<Segment>, mm: map<int, Region>,
                 L1: Layout, L3: Layout, segs1: seq<Segment>, p: int, q: int, n: nat, bytes: nat, nb: nat)
    requires KeptAll(w, w1, L, segs, mm, L1, segs1, mm) && KeptMoved(w1, w3, L1, segs1, mm, L3, p, q)
    requires p !in Live(L, segs) && p !in mm && q !in mm && p in Live(L1, segs1)
    requires Live(L1, segs1) == Live(L, segs)[p := Live(L1, segs1)[p]]
    requires Live(L3, segs1) == (Live(L1, segs1) - {p})[q := n] && (q == p || q !in Live(L1, segs1))
    requires bytes + 8 <= nb <= n
    ensures q in Live(L3, segs1) && Live(L3, segs1) == Live(L, segs)[q := Live(L3, segs1)[q]] && q !in Live(L, segs)
    ensures Room(L3, segs1, mm, q, bytes)
    ensures KeptAll(w, w3, L, segs, mm, L3, segs1, mm) && Live(L3, segs1)[q] == n
  {
    forall u, a | Has(L, segs, mm, u, a) ensures Has(L3, segs1, mm, u, a) && Rd(w3, a) == Rd(w, a) {
      assert u != p && u != q && Has(L1, segs1, mm, u, a);
    }
  }

  lemma DirectDone(w: Memory, w1: Memory, w2: Memory, L: Layout, segs: seq<Segment>, mm: map<int, Region>, L1: Layout,
                   segs1: seq<Segment>,
                   mm1: map<int, Region>, mm2: map<int, Region>, p: int, q: int, bytes: nat, nb: nat)
    requires KeptAll(w, w1, L, segs, mm, L1, segs1, mm1) && KeptBut(w1, w2, L1, segs1, mm1, L1, segs1, mm2, p)
    requires p !in mm && p in mm1 && mm1 == mm[p := mm1[p]] && p !in Live(L, segs)
    requires mm2 == (mm1 - {p})[q := mm1[p]] && (q == p || q !in mm1)
    requires Mem(q) + nb < mm2[q].base + mm2[q].size - MMAP_FOOT_PAD && bytes <= nb
    ensures q !in mm && mm2 == mm[q := mm2[q]] && Room(L1, segs1, mm2, q, bytes)
    ensures KeptAll(w, w2, L, segs, mm, L1, segs1, mm2)
  {
    forall u, a | Has(L, segs, mm, u, a) ensures Has(L1, segs1, mm2, u, a) && Rd(w2, a) == Rd(w, a) {
      assert u != p && Has(L1, segs1, mm1, u, a);
    }
  }

  /** Aligning a chunk of a segment: leader and tail go back. */
  method AlignHeap(m: MState, p: int, a: nat, nb: nat) returns (q: int, ghost n: nat)
    requires m.Valid() && p in Live(m.L, m.segs) && a >= MIN_CHUNK_SIZE && a % 16 == 0 && nb % 16 == 0
    requires MIN_CHUNK_SIZE <= nb
    requires Live(m.L, m.segs)[p] >= nb + a + MIN_CHUNK_SIZE
    modifies m`word, m`smallmap, m`treemap, m`treebins, m`g, m`dv, m`dvsize, m`top, m`topsize, m`L
    ensures m.Valid() && q > 0 && Mem(q) % a == 0 && nb <= n <= nb + MIN_CHUNK_SIZE && q !in m.mm
    ensures Live(m.L, m.segs) == (Live(old(m.L), m.segs) - {p})[q := n] && (q == p || q !in Live(old(m.L), m.segs))
    ensures KeptMoved(old(m.word), m.word, old(m.L), m.segs, m.mm, m.L, p, q)
  {
    hide MState.HeapValid, BooksOk, ParamsOk, KeptBut, KeptMoved, Live;
    ghost var w, L := m.word, m.L;
    LivePlace(m, p);
    ghost var n1;
    q, n1 := AlignLead(m, p, a);
    ghost var w2, L2 := m.word, m.L;
    n := AlignTail(m, q, nb);
    TwoSteps(w, w2, m.word, L, L2, m.L, m.segs, m.mm, p, q);
  }

  /** Kept but for what p held, and nothing was held at q before. */
  ghost predicate KeptMoved(w: Memory, w': Memory, L: Layout, segs: seq<Segment>, mm: map<int, Region>, L': Layout,
                            p: int, q: int)
  { forall u, a :: u != p && u != q && Has(L, segs, mm, u, a) ==> Has(L', segs, mm, u, a) && Rd(w', a) == Rd(w, a) }

  lemma TwoSteps(w: Memory, w2: Memory, w3: Memory, L: Layout, L2: Layout, L3: Layout, segs: seq<Segment>, mm: map<int,
                 Region>, p: int, q: int)
    requires KeptBut(w, w2, L, segs, mm, L2, segs, mm, p) && KeptBut(w2, w3, L2, segs, mm, L3, segs, mm, q)
    ensures KeptMoved(w, w3, L, segs, mm, L3, p, q)
  {}
}
