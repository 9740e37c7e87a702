/** malloc and free, complete. */
module Dlmalloc {
  import opened Words
  import opened Bits
  import opened Binmaps
  import opened Sizes
  import opened Bins
  import opened Layout
  import opened LayoutFacts
  import opened Heap
  import opened Merging
  import opened Accounts
  import opened State
  import opened Freeing
  import opened Malloc
  import opened BestFit
  import opened Checks
  import opened Direct
  import opened Growing
  import opened Trimming

  /** chunk2mem */
  function Mem(p: int): int { p + 16 }

  /** What a successful request gave: a chunk of a segment, barely larger than asked, or pages of its own. */
  ghost predicate Gained(live: map<int, nat>, live': map<int, nat>, mm: map<int, Region>, mm': map<int, Region>, p: int,
                         nb: nat) {
    if p in mm' then
      && p !in mm && mm' == mm[p := mm'[p]] && mm'[p].base == p && live' == live
      && Mem(p) + nb < mm'[p].base + mm'[p].size - MMAP_FOOT_PAD
    else
      p !in live && p in live' && live' == live[p := live'[p]] && mm' == mm && nb <= live'[p] < nb + MIN_CHUNK_SIZE
  }

  /** The bins' part of malloc. If it yields nothing, dv is big enough or no binned chunk is. */
  method MallocBins(m: MState, nb: nat) returns (p: int)
    requires m.HeapValid() && nb % 16 == 0 && MIN_CHUNK_SIZE <= nb < LIMIT
    modifies m`word, m`smallmap, m`treemap, m`treebins, m`g, m`dv, m`dvsize, m`L
    ensures m.HeapValid() && PayloadSafe(old(m.word), m.word, old(m.L), m.segs)
    ensures p == 0 ==> m.L == old(m.L) && m.word == old(m.word) && m.Spares() == old(m.Spares()) && m.g == old(m.g)
    ensures p == 0 && m.dvsize < nb && (nb < 256 || AllBelow40(m.g)) ==> forall q :: q in m.g.size ==> m.g.size[q] < nb
    ensures p == 0 && AllBelow40(m.g) ==> DvNext(m.g, m.dvsize, nb)
    ensures p != 0 ==> Allocated(old(m.L), m.L, p, nb) && Rested(old(m.L), m.L, old(m.Spares()), m.Spares(), p, nb)
    ensures p != 0 ==> p in old(m.g).size && (AllBelow40(old(m.g)) ==> BinNext(old(m.g), old(m.dvsize), nb, p))
  {
    hide Structured, Threaded, Mapped, LayoutOk, Tagged, Indexed, PayloadSafe, Allocated, IsBestFit, AllBelow40,
      Rested;
    ghost var w, g := m.word, m.g;
    KeysAgree(g);
    SafeStill(w, m.L, m.segs);
    if nb < 256 {
      p := MallocSmall(m, nb);
    } else if m.treemap != EMPTY {
      p := TmallocLarge(m, nb);
      NoSmallFits(g, nb);
      if p != 0 && AllBelow40(g) { LargeBest(g, nb, p); }
    } else {
      NoTrees(w, g, m.smallmap, m.treemap, m.treebins);
      NoSmallFits(g, nb);
      p := 0;
    }
  }

  /** The binned chunk p is the one to serve: the smallest that fits, and preferred to dv. */
  ghost predicate BinNext(g: Index, dvsize: nat, nb: nat, p: int) {
    && BestBinned(g, nb, p)
    && (nb <= dvsize ==> if nb < 256 then g.size[p] == nb else g.size[p] < dvsize)
  }

  /** No binned chunk is preferred to dv. */
  ghost predicate DvNext(g: Index, dvsize: nat, nb: nat)
  { forall q :: q in g.size && nb <= g.size[q] ==> if nb < 256 then g.size[q] != nb else dvsize <= g.size[q] }

  /** Chunks of 256 bytes and more are in the trees. */
  lemma NoSmallFits(g: Index, nb: nat)
    requires Structured(g) && nb >= 256
    ensures forall q :: q in g.size && nb <= g.size[q] ==> InTree(g, q)
  {
    forall q | q in g.size && nb <= g.size[q] ensures InTree(g, q) { assert Fits(g.home[q], g.size[q]); }
  }

  lemma LargeBest(g: Index, nb: nat, p: int)
    requires g.home.Keys == g.size.Keys && IsBestFit(g, nb, p) && p != 0
    requires forall q :: q in g.size && nb <= g.size[q] ==> InTree(g, q)
    ensures BestBinned(g, nb, p)
  {}

  /** No free chunk is large enough, where top must stay non-empty. */
  ghost predicate NoneLeft(L: Layout, top: int, nb: nat)
  { forall q :: q in L && !L[q].inuse ==> if q == top then L[q].size <= nb else L[q].size < nb }

  /** The chunk that is due has served, where the bins are searched exactly, and the rest of it is where it belongs. */
  ghost predicate ByPolicy(g: Index, L: Layout, L': Layout, s: Spare, s': Spare, p: int, nb: nat)
  { Rested(L, L', s, s', p, nb) && (g.home.Keys == g.size.Keys && AllBelow40(g) ==> Serves(L, s, nb, p)) }

  /** Some free chunk is large enough, and one is found: that needs sizes below 2^40 only if it may have to come from
      the trees and the request is large. */
  ghost predicate Findable(g: Index, L: Layout, s: Spare, nb: nat) {
    && !NoneLeft(L, s.top, nb)
    && (nb < 256 || nb <= s.dvsize || nb < s.topsize || (g.home.Keys == g.size.Keys && AllBelow40(g)))
  }

  /** If the bins are searched exactly, no free chunk is large enough. */
  ghost predicate NothingFits(g: Index, L: Layout, top: int, nb: nat)
  { g.home.Keys == g.size.Keys && AllBelow40(g) ==> NoneLeft(L, top, nb) }

  /** The part of malloc that looks for free memory: bins, then dv, then top. It gives up only if
      no free chunk is large enough. */
  method MallocFree(m: MState, nb: nat) returns (p: int)
    requires m.Valid() && nb % 16 == 0 && MIN_CHUNK_SIZE <= nb < LIMIT
    modifies m`word, m`smallmap, m`treemap, m`treebins, m`g, m`dv, m`dvsize, m`top, m`topsize, m`L
    ensures m.Valid()
    ensures p == 0 ==> m.L == old(m.L) && m.word == old(m.word) && m.Spares() == old(m.Spares()) && m.g == old(m.g)
    ensures p == 0 ==> NothingFits(m.g, m.L, m.top, nb)
    ensures p == 0 ==> !Findable(m.g, m.L, m.Spares(), nb)
    ensures p != 0 ==> p > 0 && Gained(Live(old(m.L), m.segs), Live(m.L, m.segs), m.mm, m.mm, p, nb)
    ensures p != 0 ==> ByPolicy(old(m.g), old(m.L), m.L, old(m.Spares()), m.Spares(), p, nb)
    ensures Undisturbed(old(m.word), m.word, old(m.L), m.mm)
  {
    hide MState.HeapValid, BooksOk, Undisturbed, PayloadSafe, Live, Allocated, ParamsOk, AllBelow40, Gained, NoneLeft,
      Rested, Serves, BinNext, DvNext;
    ghost var w, L := m.word, m.L;
    HeapFacts(m);
    ServedBy(m, nb);
    p := MallocBins(m, nb);
    if p == 0 {
      if nb <= m.dvsize {
        p := MallocFromDv(m, nb);
      } else if nb < m.topsize {
        p := MallocFromTop(m, nb);
      } else {
        NoneFits(m, nb);
      }
    }
    BooksAfter(w, m.word, m.os.mapped, L, m.segs, m.mm, m.mp.page, m.least);
    if p != 0 { AllocatedGained(m, L, p, nb); }
  }

  /** What the index says of the chunk to serve, said of the layout. */
  lemma ServedBy(m: MState, nb: nat)
    requires m.HeapValid()
    ensures m.g.home.Keys == m.g.size.Keys
    ensures forall p :: p in m.g.size && BinNext(m.g, m.dvsize, nb, p) ==> Serves(m.L, m.Spares(), nb, p)
    ensures 0 < nb <= m.dvsize && DvNext(m.g, m.dvsize, nb) ==> Serves(m.L, m.Spares(), nb, m.dv)
    ensures m.dvsize < nb < m.topsize && (forall q :: q in m.g.size ==> m.g.size[q] < nb) ==>
      Serves(m.L, m.Spares(), nb, m.top)
  {
    assert 0 !in m.L;
    hide Structured, Threaded, Mapped, Tiled, Coalesced, Recorded, Tagged, Fenced;
    KeysAgree(m.g);
    if m.dvsize < nb < m.topsize && forall q :: q in m.g.size ==> m.g.size[q] < nb {
      forall q | q in m.L && !m.L[q].inuse && q != m.top ensures m.L[q].size < nb { assert q == m.dv || q in m.g.size; }
    }
  }

  lemma NoneFits(m: MState, nb: nat)
    requires m.HeapValid() && m.dvsize < nb && m.topsize <= nb
    ensures m.g.home.Keys == m.g.size.Keys
    ensures (forall q :: q in m.g.size ==> m.g.size[q] < nb) ==> NoneLeft(m.L, m.top, nb)
  {
    if forall q :: q in m.g.size ==> m.g.size[q] < nb { FreeBelow(m.L, m.segs, m.Spares(), m.g.size, nb); }
  }

  lemma FreeBelow(L: Layout, segs: seq<Segment>, s: Spare, size: map<int, nat>, nb: nat)
    requires DvOk(L, s) && TopOk(L, segs, s) && Indexed(L, size, s, {}) && s.dvsize < nb && s.topsize <= nb && 0 !in L
    requires forall q :: q in size ==> size[q] < nb
    ensures NoneLeft(L, s.top, nb)
  {
    forall q | q in L && !L[q].inuse ensures if q == s.top then L[q].size <= nb else L[q].size < nb {
      assert q == s.dv || q == s.top || q in size;
    }
  }

  lemma AllocatedGained(m: MState, L: Layout, p: int, nb: nat)
    requires m.Valid() && Allocated(L, m.L, p, nb) && forall q :: IsRecord(m.segs, q) ==> q in Used(L)
    ensures p > 0 && Gained(Live(L, m.segs), Live(m.L, m.segs), m.mm, m.mm, p, nb)
  {
    hide MState.HeapValid, BooksOk;
    var n := m.L[p].size;
    LiveTaken(L, m.L, m.segs, p, n);
    LiveNotDirect(m, p);
    ChunkPlace(m, p);
  }

  lemma ChunkPlace(m: MState, p: int)
    requires m.HeapValid() && p in m.L
    ensures p > 0 && p % 16 == 0
  {}

  /** The chunk size for a request; requests of MAX_REQUEST and more get a size nothing can meet. */
  function Padded(bytes: nat): nat { if bytes < MAX_REQUEST then Request2Size(bytes) else LIMIT - 1 }

  /** How much the system is asked for: no more than the request takes, in whole pages or grains. */
  ghost predicate GrantSized(mp: Params, nb: nat, direct: bool, size: int) {
    if direct then nb >= mp.mmapThreshold && LeastMultiple(size, nb + MMAP_PADDING, mp.page)
    else LeastMultiple(size, nb + SYS_ALLOC_PADDING, mp.granularity)
  }

  /** malloc. A result is 16-byte aligned memory for the request that nobody holds. A failure changes nothing, and comes
      about only if no free chunk is large enough and the system may not be asked for memory or refuses it. While a free
      chunk is large enough the system is not asked, and the chunk that the policy names serves the request. */
  method DlMalloc(m: MState, bytes: nat) returns (mem: int)
    requires m.Valid() && bytes < LIMIT
    modifies m`least, m`segs, m`releaseChecks, m`word, m`top, m`topsize, m`dv, m`dvsize, m`trimCheck, m`footprint
    modifies m`maxFootprint
    modifies m`L, m`smallmap, m`treemap, m`treebins, m`g, m`mm, m.os
    ensures m.Valid()
    ensures m.trimCheck == old(m.trimCheck) || m.trimCheck == m.mp.trimThreshold
    ensures mem == 0 ==>
      && m.L == old(m.L) && m.segs == old(m.segs) && m.mm == old(m.mm) && m.word == old(m.word)
      && m.Spares() == old(m.Spares())
      && m.footprint == old(m.footprint) && m.os.mapped == old(m.os.mapped) && m.g == old(m.g)
    ensures m.os.kept == old(m.os.kept)
    ensures mem == 0 ==>
      Barred(m.mp, m.footprint, m.footprintLimit, Padded(bytes)) || m.os.refusals > old(m.os.refusals)
    ensures mem == 0 && bytes < MAX_REQUEST ==> NothingFits(m.g, m.L, m.top, Padded(bytes))
    ensures bytes < MAX_REQUEST && old(Findable(m.g, m.L, m.Spares(), Padded(bytes))) ==>
      && mem != 0 && m.os.mapped == old(m.os.mapped) && m.os.refusals == old(m.os.refusals)
      && m.footprint == old(m.footprint) && m.segs == old(m.segs) && m.mm == old(m.mm)
      && ByPolicy(old(m.g), old(m.L), m.L, old(m.Spares()), m.Spares(), mem - 16, Padded(bytes))
    ensures mem != 0 ==>
      && mem > 0 && mem % 16 == 0 && bytes < MAX_REQUEST
      && Gained(Live(old(m.L), old(m.segs)), Live(m.L, m.segs), old(m.mm), m.mm, mem - 16, Padded(bytes))
      && MallocedChunkOk(m.word, m.least, m.mp.page, mem - 16, Padded(bytes))
    ensures m.footprint != old(m.footprint) && m.footprintLimit != 0 ==> m.footprint <= m.footprintLimit
    ensures m.footprint != old(m.footprint) ==>
      mem != 0 && GrantSized(m.mp, Padded(bytes), mem - 16 in m.mm, m.footprint - old(m.footprint))
    ensures m.maxFootprint == Peak(old(m.maxFootprint), m.footprint)
    ensures KeptAll(old(m.word), m.word, old(m.L), old(m.segs), old(m.mm), m.L, m.segs, m.mm)
  {
    hide MState.HeapValid, BooksOk, Undisturbed, Live, ParamsOk, AllBelow40, Gained, Request2Size, KeptAll,
      MallocedChunkOk, Barred, NothingFits, Findable, ByPolicy, GrantJoined, LeastMultiple;
    ghost var w, L, segs, mm := m.word, m.L, m.segs, m.mm;
    var nb := Padded(bytes);
    var p := 0;
    if bytes < MAX_REQUEST {
      RequestFits(bytes);
      p := MallocFree(m, nb);
    }
    if p == 0 {
      p := SysAlloc(m, nb);
      if p != 0 { SystemGained(m, L, segs, mm, p, nb); }
    }
    if p == 0 {
      AllStill(w, L, segs, mm);
    } else {
      GainedKept(w, m.word, L, segs, mm, m.L, m.segs, m.mm, p, nb);
      GainedAligned(m, L, segs, mm, p, nb);
      GainedChecked(m, L, segs, mm, p, nb);
    }
    mem := if p == 0 then 0 else Mem(p);
  }

  lemma GainedAligned(m: MState, L: Layout, segs: seq<Segment>, mm: map<int, Region>, p: int, nb: nat)
    requires m.Valid() && Gained(Live(L, segs), Live(m.L, m.segs), mm, m.mm, p, nb)
    ensures p % 16 == 0
  {
    hide MState.HeapValid;
    if p in m.mm {
      assert MappedChunk(m.word, p, m.mm[p]);
    } else {
      ChunkPlace(m, p);
    }
  }

  /** What malloc gave passes do_check_malloced_chunk. */
  lemma GainedChecked(m: MState, L: Layout, segs: seq<Segment>, mm: map<int, Region>, p: int, nb: nat)
    requires m.Valid() && Gained(Live(L, segs), Live(m.L, m.segs), mm, m.mm, p, nb) && nb >= MIN_CHUNK_SIZE
    ensures m.mp.page > 0 && MallocedChunkOk(m.word, m.least, m.mp.page, p, nb)
  {
    hide MState.HeapValid, MState.BooksValid, InuseChunkOk, ChunkSize, IsInuse, IsMmapped, Pinuse;
    if p in m.mm {
      DirectChecked(m, p);
    } else {
      InuseChecked(m, p);
      HeapHead(m, p);
    }
  }

  lemma KeptStill(w: Memory, L: Layout, segs: seq<Segment>, mm: map<int, Region>, x: int)
    ensures KeptBut(w, w, L, segs, mm, L, segs, mm, x)
  {}

  lemma GainedKept(w: Memory, w': Memory, L: Layout, segs: seq<Segment>, mm: map<int, Region>, L': Layout,
                   segs': seq<Segment>, mm': map<int, Region>, p: int, nb: nat)
    requires Gained(Live(L, segs), Live(L', segs'), mm, mm', p, nb) && Undisturbed(w, w', L, mm)
    ensures KeptAll(w, w', L, segs, mm, L', segs', mm')
  {
    forall q, a | Has(L, segs, mm, q, a) ensures Has(L', segs', mm', q, a) && Rd(w', a) == Rd(w, a) {
      HasSize(L, segs, q, a);
      HasSize(L', segs', q, a);
    }
  }

  lemma AllStill(w: Memory, L: Layout, segs: seq<Segment>, mm: map<int, Region>)
    ensures KeptAll(w, w, L, segs, mm, L, segs, mm)
  {}

  lemma SystemGained(m: MState, L: Layout, segs: seq<Segment>, mm: map<int, Region>, p: int, nb: nat)
    requires p in m.mm ==>
      && p !in mm && m.mm == mm[p := m.mm[p]] && m.mm[p].base == p
      && p + nb + 16 < m.mm[p].base + m.mm[p].size - MMAP_FOOT_PAD
      && m.L == L && m.segs == segs
    requires p !in m.mm ==> m.mm == mm && p !in Live(L, segs) && Live(m.L, m.segs) == Live(L, segs)[p := nb]
    ensures Gained(Live(L, segs), Live(m.L, m.segs), mm, m.mm, p, nb)
  {}

  // ------------------------------------------------------------- free

  /** The runtime check of realloc: ok_address, ok_inuse, ok_next and ok_pinuse. */
  predicate ReallocCheck(w: Memory, least: int, p: int)
  { least <= p && IsInuse(w, p) && p < NextChunk(w, p) && Pinuse(w, NextChunk(w, p)) }

  /** Those of free: before is_mmapped is looked at, and after, where the chunk before may be free. */
  predicate FreeCheck(w: Memory, least: int, p: int) {
    && least <= p && IsInuse(w, p)
    && (IsMmapped(w, p) || (ReallocCheck(w, least, p) && (Pinuse(w, p) || least <= PrevChunk(w, p))))
  }

  /** They pass on every chunk that a client holds, in a segment or mapped directly. */
  lemma ChecksPass(m: MState, p: int)
    requires m.Valid() && (p in Live(m.L, m.segs) || p in m.mm)
    ensures ReallocCheck(m.word, m.least, p) && FreeCheck(m.word, m.least, p)
  {
    hide MState.HeapValid, BooksOk, ParamsOk;
    if p in m.mm {
      DirectChecked(m, p);
      assert MappedChunk(m.word, p, m.mm[p]) by { DirectIs(m, p); }
    } else {
      InuseChecked(m, p);
      HeapHead(m, p);
      if !Pinuse(m.word, p) { BeforeAbove(m, p); }
    }
  }

  lemma DirectIs(m: MState, p: int)
    requires m.Valid() && p in m.mm
    ensures MappedChunk(m.word, p, m.mm[p])
  {}

  lemma BeforeAbove(m: MState, p: int)
    requires m.Valid() && p in m.L && !m.L[p].pinuse
    ensures m.least <= PrevChunk(m.word, p)
  {
    hide Structured, Threaded, Mapped, Indexed, Coalesced, MinSized, Recorded, Fenced, PowerOfTwo;
    PrevFree(m.word, m.L, m.segs, m.Spares(), p);
    HeapAbove(m, PrevChunk(m.word, p));
  }

  /** free of a chunk in a segment, without the trimming it may trigger. */
  method FreeChunk(m: MState, p: int, psize: nat) returns (fate: Fate, total: nat)
    requires m.Valid() && p in Live(m.L, m.segs) && psize == m.L[p].size
    modifies m`word, m`smallmap, m`treemap, m`treebins, m`g, m`dv, m`dvsize, m`top, m`topsize, m`L
    ensures m.Valid() && Live(m.L, m.segs) == Live(old(m.L), m.segs) - {p} && Used(m.L) == Used(old(m.L)) - {p}
    ensures FreedAs(old(m.L), m.L, old(m.Spares()), m.Spares(), p)
    ensures fate == IntoTop <==> old(m.top) == old(End(m.L, p))
    ensures fate == Binned && total >= 256 <==> old(LargeBinned(m.L, m.Spares(), p))
    ensures Undisturbed(old(m.word), m.word, m.L, m.mm)
  {
    hide MState.HeapValid, BooksOk, Undisturbed, PayloadsKept, ParamsOk, FreedAs, LargeBinned;
    ghost var w, L := m.word, m.L;
    fate, total := DisposeChunk(m, p, psize);
    LiveFreed(L, m.L, m.segs, p);
    FreedBooks(w, m.word, m.os.mapped, L, m.L, m.segs, m.mm, m.mp.page, m.least, p);
  }

  lemma FreedBooks(w: Memory, w': Memory, mapped: set<int>, L: Layout, L': Layout, segs: seq<Segment>, mm: map<int,
                   Region>, page: nat, least: int, p: int)
    requires BooksOk(w, mapped, segs, mm, page, least) && PayloadsKept(w, w', L, L', segs) && Used(L') == Used(L) - {p}
    ensures BooksOk(w', mapped, segs, mm, page, least) && Undisturbed(w, w', L', mm)
  {
    LocalKeepsMapped(w, w', segs, mm);
    forall u, a | InPayload(L', u, a) ensures Rd(w', a) == Rd(w, a) {
      assert u in Used(L') && u in Used(L) && Used(L)[u] == Used(L')[u];
      assert InPayload(L, u, a);
    }
  }

  /** free. Exactly the given chunk ceases to be live, and no payload that stays live is written. */
  method DlFree(m: MState, mem: int)
    requires m.Valid() && (mem == 0 || mem - 16 in Live(m.L, m.segs) || mem - 16 in m.mm)
    modifies m`word, m`smallmap, m`treemap, m`treebins, m`g, m`dv, m`dvsize, m`top, m`topsize, m`trimCheck, m`segs
    modifies m`footprint, m`L
    modifies m`releaseChecks, m`mm, m.os
    ensures m.Valid() && m.footprint <= old(m.footprint)
    ensures mem == 0 ==>
      && m.L == old(m.L) && m.segs == old(m.segs) && m.mm == old(m.mm) && m.word == old(m.word)
      && m.Spares() == old(m.Spares())
    ensures m.trimCheck == old(m.trimCheck) || m.trimCheck == m.mp.trimThreshold || m.trimCheck == LIMIT - 1
    ensures m.os.kept >= old(m.os.kept)
    ensures mem != 0 && mem - 16 in old(m.mm) ==>
      && m.L == old(m.L) && m.segs == old(m.segs) && m.Spares() == old(m.Spares())
      && Released(old(m.mm), m.mm, old(m.os.mapped), m.os.mapped, mem - 16, m.os.kept > old(m.os.kept))
      && m.footprint == old(m.footprint) - (if m.os.kept > old(m.os.kept) then 0 else old(m.mm[mem - 16].size))
    ensures mem != 0 && mem - 16 !in old(m.mm) ==>
      && Live(m.L, m.segs) == Live(old(m.L), old(m.segs)) - {mem - 16} && m.mm == old(m.mm)
      && TrimmedAfter(old(m.L), old(m.top), mem - 16, m.topsize, old(m.trimCheck), m.mp.granularity,
                      m.os.kept > old(m.os.kept))
      && (old(LargeBinned(m.L, m.Spares(), mem - 16)) ==>
            CountedDown(old(m.releaseChecks), m.releaseChecks, m.L, m.segs, m.os.kept > old(m.os.kept)))
    ensures KeptBut(old(m.word), m.word, old(m.L), old(m.segs), old(m.mm), m.L, m.segs, m.mm, mem - 16)
  {
    hide MState.HeapValid, BooksOk, Undisturbed, Used, Live, ParamsOk, Extends, KeptBut, FreeCheck, TrimmedAfter,
      LargeBinned, CountedDown;
    ghost var w, L, segs, mm := m.word, m.L, m.segs, m.mm;
    SafeNow(w, m.L, m.mm);
    KeptStill(w, m.L, m.segs, m.mm, mem - 16);
    if mem != 0 {
      var p := mem - 16;
      HeadTells(m, p);
      assert FreeCheck(m.word, m.least, p) by { ChecksPass(m, p); }
      if Rd(m.word, HeadAt(p)) % 4 == 0 {
        var gone := ReleaseDirect(m, p);
        SafeNow(w, m.L, m.mm);
        KeptFrom(w, m.word, L, segs, mm, m.L, m.segs, m.mm, p);
        return;
      }
      FreeAndTrim(m, p, ChunkSize(m.word, p));
      KeptFrom(w, m.word, L, segs, mm, m.L, m.segs, m.mm, p);
    }
  }

  lemma UnitPositive(m: MState)
    requires m.Valid()
    ensures m.mp.granularity > 0
  {
    hide MState.HeapValid, BooksOk;
  }

  /** One free less until unused segments are looked for; the unsigned counter wraps around. */
  method CountDown(m: MState)
    requires m.Valid()
    modifies m`releaseChecks
    ensures m.Valid()
    ensures m.releaseChecks == if old(m.releaseChecks) == 0 then LIMIT - 1 else old(m.releaseChecks) - 1
  {
    m.releaseChecks := if m.releaseChecks == 0 then LIMIT - 1 else m.releaseChecks - 1;
  }

  /** Where freeing p makes top grow past the threshold, whole units are given back, unless the system refuses. */
  ghost predicate TrimmedAfter(L: Layout, top: int, p: int, topsize: nat, threshold: nat, unit: nat, refused: bool) {
    p in L && End(L, p) == top ==> topsize <= threshold || topsize <= TOP_FOOT_SIZE + unit || refused
  }

  lemma TrimmedSmall(topsize: nat, topsize': nat, pad: nat, unit: nat, refused: bool)
    requires TopTrimmed(topsize, topsize', pad, unit, refused) && unit > 0
    ensures topsize' <= pad + unit || refused
  {
    if pad < topsize { ExtraFits(topsize, pad, unit); }
    hide Extra;
  }

  /** A large chunk has gone into its bin: the counter falls, and when it gets to 0 no unused segment is left. */
  ghost predicate CountedDown(checks: nat, checks': nat, L: Layout, segs: seq<Segment>, refused: bool) {
    if checks == 1 then checks' >= MAX_RELEASE_CHECK_RATE && (NoneReleasable(L, segs) || refused)
    else checks' == if checks == 0 then LIMIT - 1 else checks - 1
  }

  /** free of a chunk in a segment, and what it gives back to the system after. */
  method FreeAndTrim(m: MState, p: int, psize: nat)
    requires m.Valid() && p in Live(m.L, m.segs) && psize == m.L[p].size
    modifies m`word, m`smallmap, m`treemap, m`treebins, m`g, m`dv, m`dvsize, m`top, m`topsize, m`trimCheck, m`segs
    modifies m`footprint, m`L
    modifies m`releaseChecks, m.os
    ensures m.Valid() && m.footprint <= old(m.footprint)
    ensures Live(m.L, m.segs) == Live(old(m.L), old(m.segs)) - {p} && Undisturbed(old(m.word), m.word, m.L, m.mm)
    ensures m.trimCheck == old(m.trimCheck) || m.trimCheck == m.mp.trimThreshold || m.trimCheck == LIMIT - 1
    ensures m.os.kept >= old(m.os.kept)
    ensures TrimmedAfter(old(m.L), old(m.top), p, m.topsize, old(m.trimCheck), m.mp.granularity,
                         m.os.kept > old(m.os.kept))
    ensures old(LargeBinned(m.L, m.Spares(), p)) ==>
      CountedDown(old(m.releaseChecks), m.releaseChecks, m.L, m.segs, m.os.kept > old(m.os.kept))
  {
    hide MState.HeapValid, MState.BooksValid, Undisturbed, Used, Live, Extends, FreedAs, TopTrimmed, NoneReleasable,
      LargeBinned;
    UnitPositive(m);
    ghost var w := m.word;
    var fate, total := FreeChunk(m, p, psize);
    ghost var w1, L1 := m.word, m.L;
    if fate == IntoTop && m.topsize > m.trimCheck {
      ghost var size := m.topsize;
      var trimmed := SysTrim(m, 0);
      TrimmedSmall(size, m.topsize, TOP_FOOT_SIZE, m.mp.granularity, m.os.kept > old(m.os.kept));
      UndisturbedSince(w, w1, m.word, L1, m.L, m.mm);
    } else if fate == Binned && total >= 256 {
      CountDown(m);
      if m.releaseChecks == 0 {
        var released := ReleaseUnusedSegments(m);
        UndisturbedSince(w, w1, m.word, L1, m.L, m.mm);
      }
    }
  }

  /** The head word tells directly mapped chunks from the others. */
  lemma HeadTells(m: MState, p: int)
    requires m.Valid() && (p in Live(m.L, m.segs) || p in m.mm)
    ensures Rd(m.word, HeadAt(p)) % 4 == 0 <==> p in m.mm
    ensures p !in m.mm ==> p in Live(m.L, m.segs) && p in m.L && ChunkSize(m.word, p) == m.L[p].size
  {
    hide Structured, Threaded, Mapped, Indexed, Coalesced, MinSized, AllContained, AllFollowed, Based;
    if p in m.mm {
      DirectWords(m.word, m.mm, p);
    } else {
      HeadFields(m.word, p, m.L[p]);
    }
  }
}
