/** malloc from free chunks: the bins, dv and top. */
module Malloc {
  import opened Words
  import opened Bits
  import opened Binmaps
  import opened Bins
  import opened Rings
  import opened Layout
  import opened LayoutFacts
  import opened Heap
  import opened Merging
  import opened Carving
  import opened State
  import opened SmallBins
  import opened BestFit
  import opened Freeing

  /** set_inuse_and_pinuse */
  function InuseTags(w: Memory, p: int, size: nat): Memory {
    var w1 := w[HeadAt(p) := HeadWord(Chunk(size, true, true))];
    var h := Rd(w1, HeadAt(p + size));
    w1[HeadAt(p + size) := if h % 2 == 1 then h else h + 1]
  }

  /** p, of at least nb bytes and less than a minimal chunk more, has come into use, and nothing else has changed. */
  ghost predicate Allocated(L: Layout, L': Layout, p: int, nb: nat)
  { p !in Used(L) && p in L' && nb <= L'[p].size < nb + MIN_CHUNK_SIZE && Used(L') == Used(L)[p := L'[p].size] }

  /** Where the rest goes of chunk p, of which nb bytes are taken. Top stays top, and dv stays dv if enough is left;
      of a binned chunk, what a small request leaves becomes dv and what a large one leaves is binned. */
  ghost predicate Rested(L: Layout, L': Layout, s: Spare, s': Spare, p: int, nb: nat) {
    && p in L && p in L' && nb <= L[p].size
    && var r := L[p].size - nb;
    && L'[p].size == (if p == s.top || r >= MIN_CHUNK_SIZE then nb else L[p].size)
    && s' == (if p == s.top then s.(top := p + nb, topsize := r)
              else if r >= MIN_CHUNK_SIZE && (p == s.dv || nb < 256) then s.(dv := p + nb, dvsize := r)
              else if p == s.dv then s.(dv := 0, dvsize := 0)
              else s)
  }

  /** A free chunk that is in the bins. */
  ghost predicate Binned(L: Layout, s: Spare, q: int) { q in L && !L[q].inuse && q != s.dv && q != s.top }

  /** Chunk p is the one to serve a request of nb bytes. The smallest binned chunk that fits does, unless dv fits and is
      preferred to it: by a small request if the binned chunk is not exact, by a large one if dv is no larger. If no
      binned chunk fits dv does, and if dv does not fit, top. */
  ghost predicate Serves(L: Layout, s: Spare, nb: nat, p: int) {
    && p in L && !L[p].inuse && nb <= L[p].size
    && if p == s.top then nb < L[p].size && forall q :: q in L && !L[q].inuse && q != p ==> L[q].size < nb
       else if p == s.dv then
         forall q :: Binned(L, s, q) && nb <= L[q].size ==> if nb < 256 then L[q].size != nb else L[p].size <= L[q].size
       else
         && (forall q :: Binned(L, s, q) && nb <= L[q].size ==> L[p].size <= L[q].size)
         && (nb <= s.dvsize ==> if nb < 256 then L[p].size == nb else L[p].size < s.dvsize)
  }

  lemma WholeTags(w: Memory, L: Layout, top: int, p: int)
    requires Disjoint(L) && Shaped(L) && Tagged(w, L, top) && p in L && !L[p].inuse && L[p].pinuse && p != top
    requires End(L, p) in L
    ensures TakeTagged(w, InuseTags(w, p, L[p].size), L, p, L[p].size, top)
  {
    var e := End(L, p);
    HeadFields(w, e, L[e]);
  }

  lemma PartTags(w: Memory, L: Layout, top: int, p: int, n: nat)
    requires Shaped(L) && p in L && L[p].pinuse && 0 < n < L[p].size && n % 16 == 0
    ensures p != top ==>
      TakeTagged(w, FreeTags(w[HeadAt(p) := HeadWord(Chunk(n, true, true))], p + n, L[p].size - n), L, p, n, top)
    ensures p == top ==>
      var w1 := w[HeadAt(p + n) := HeadWord(Chunk(L[p].size - n, false, true))];
      TakeTagged(w, w1[HeadAt(p) := HeadWord(Chunk(n, true, true))], L, p, n, top)
  {
    Multiples16(p, n);
    Multiples16(p, L[p].size);
    FarApart(p, End(L, p));
    FarApart(p + n, End(L, p));
    hide Shaped, HeadWord;
  }

  lemma FreeChunkFacts(w: Memory, L: Layout, segs: seq<Segment>, s: Spare, p: int)
    requires LayoutOk(L, segs, s) && p in L && !L[p].inuse
    ensures L[p].pinuse && Disjoint(L) && Shaped(L) && p > 0 && L[p].size % 16 == 0
    ensures p != s.top ==> End(L, p) in L && L[p].size >= MIN_CHUNK_SIZE
  {
    hide AllContained, AllFollowed, Based;
    assert Isolated(L, p);
    if p != s.top { HasNext(L, segs, s, p); }
  }

  /** The whole of the loose chunk p comes into use. */
  method TakeWhole(m: MState, p: int, size: nat)
    requires Loose(m, {p}) && p in m.L && !m.L[p].inuse && p != m.dv && p != m.top && size == m.L[p].size
    modifies m`word, m`L
    ensures m.HeapValid() && m.L == Take(old(m.L), p, size)
    ensures Used(m.L) == Used(old(m.L))[p := size] && p in m.L && m.L[p].size == size
    ensures PayloadSafe(old(m.word), m.word, old(m.L), m.segs)
  {
    hide Structured, Threaded, Mapped, Tiled, Coalesced, MinSized, Recorded, Tagged, PayloadSafe, Indexed, DvOk, TopOk,
      TakeTagged, Used, Fenced;
    ghost var w, L := m.word, m.L;
    FreeChunkFacts(w, L, m.segs, m.Spares(), p);
    WholeTags(w, L, m.top, p);
    m.word := InuseTags(m.word, p, size);
    m.L := Take(L, p, size);
    TakenState(w, m.word, L, m.segs, m.Spares(), p, size, m.g);
    SafeFenced(w, m.word, L, L, m.segs);
    Exhausted(L, m.L, m.g.size, m.Spares(), p, size);
  }

  lemma Exhausted(L: Layout, L': Layout, size: map<int, nat>, s: Spare, p: int, n: nat)
    requires p in L && n == L[p].size && L' == Take(L, p, n) && Coalesced(L) && !L[p].inuse
    requires Indexed(L', size, s, {p + n}) && n > 0
    ensures Indexed(L', size, s, {})
  {
    assert Isolated(L, p);
  }

  /** The first nb bytes of the loose chunk p come into use; the remainder is loose. */
  method TakePart(m: MState, p: int, nb: nat, rsize: nat)
    requires Loose(m, {p}) && p in m.L && !m.L[p].inuse && p != m.dv && p != m.top && nb + rsize == m.L[p].size
    requires nb % 16 == 0 && nb >= MIN_CHUNK_SIZE && rsize >= MIN_CHUNK_SIZE
    modifies m`word, m`L
    ensures Loose(m, {p + nb}) && m.L == Take(old(m.L), p, nb)
    ensures p + nb in m.L && !m.L[p + nb].inuse && m.L[p + nb].size == rsize && p + nb != m.dv && p + nb != m.top
    ensures Used(m.L) == Used(old(m.L))[p := nb] && p in m.L && m.L[p].size == nb
    ensures PayloadSafe(old(m.word), m.word, old(m.L), m.segs)
  {
    hide Structured, Threaded, Mapped, Tiled, Coalesced, MinSized, Recorded, Tagged, PayloadSafe, Indexed, TakeTagged,
      Used, Fenced;
    ghost var w, L := m.word, m.L;
    FreeChunkFacts(w, L, m.segs, m.Spares(), p);
    PartTags(w, L, m.top, p, nb);
    m.word := FreeTags(m.word[HeadAt(p) := HeadWord(Chunk(nb, true, true))], p + nb, rsize);
    Inside(L, p, nb);
    m.L := Take(L, p, nb);
    TakenState(w, m.word, L, m.segs, m.Spares(), p, nb, m.g);
    SafeFenced(w, m.word, L, L, m.segs);
  }

  /** Writes that spare the payloads of a layout spare those it had before one more chunk came into use. */
  lemma SafeBefore(w: Memory, w1: Memory, w2: Memory, L: Layout, L': Layout, segs: seq<Segment>, p: int, n: nat)
    requires PayloadSafe(w, w1, L, segs) && PayloadSafe(w1, w2, L', segs) && Used(L') == Used(L)[p := n]
    requires (p in L ==> !L[p].inuse)
    ensures PayloadSafe(w, w2, L, segs)
  {
    forall u, a | InPayload(L, u, a) ensures Rd(w2, a) == Rd(w, a) {
      assert u in Used(L) && u in Used(L') && Used(L')[u] == Used(L)[u];
      assert InPayload(L', u, a);
    }
  }

  /** replace_dv: the remainder r becomes dv; the old one is small and goes to its bin. */
  method ReplaceDv(m: MState, r: int, rsize: nat)
    requires Loose(m, {r}) && r in m.L && !m.L[r].inuse && r != m.dv && r != m.top && rsize == m.L[r].size
    requires m.dvsize < 256
    modifies m`word, m`smallmap, m`g, m`dv, m`dvsize
    ensures m.HeapValid() && PayloadSafe(old(m.word), m.word, m.L, m.segs) && m.dv == r && m.dvsize == rsize
  {
    hide Structured, Threaded, Mapped, Tiled, Coalesced, Recorded, Tagged, PayloadSafe, Indexed, OnlyBodies, Spaced,
      FreeIn, Sized, MinSized, Fenced;
    ghost var w, s' := m.word, m.Spares().(dv := r, dvsize := rsize);
    FreeChunkFacts(w, m.L, m.segs, m.Spares(), r);
    Replaced(m.L, m.g.size, m.Spares(), r, rsize);
    SafeStill(w, m.L, m.segs);
    if m.dvsize != 0 {
      FreeChunkFacts(w, m.L, m.segs, m.Spares(), m.dv);
      LooseReady(m.word, m.L, m.segs, m.g.size, s', m.dv);
      InsertSmallChunk(m, m.dv, m.dvsize);
      LinkingKeepsTags(w, m.word, m.L, m.top, m.g.size);
      LinkingSafe(w, m.word, m.L, m.segs, m.g.size);
      SafeFenced(w, m.word, m.L, m.L, m.segs);
    }
    m.dvsize := rsize;
    m.dv := r;
  }

  lemma Replaced(L: Layout, size: map<int, nat>, s: Spare, r: int, rsize: nat)
    requires DvOk(L, s) && Indexed(L, size, s, {r}) && r in L && !L[r].inuse && r != 0 && 0 !in L
    ensures Indexed(L, size, s.(dv := r, dvsize := rsize), if s.dv == 0 then {} else {s.dv})
    ensures s.dvsize == 0 ==> s.dv == 0 || s.dv in L
  {}

  /** A heap in order with one chunk named loose. */
  lemma Loosened(L: Layout, size: map<int, nat>, s: Spare, p: int)
    requires Indexed(L, size, s, {}) && (p !in L || L[p].inuse || p == s.dv || p == s.top)
    ensures Indexed(L, size, s, {p})
  {}

  lemma DvLoosened(L: Layout, segs: seq<Segment>, size: map<int, nat>, s: Spare)
    requires LayoutOk(L, segs, s) && Indexed(L, size, s, {}) && s.dv != 0
    ensures LayoutOk(L, segs, s.(dv := 0, dvsize := 0)) && Indexed(L, size, s.(dv := 0, dvsize := 0), {s.dv})
    ensures s.dv in L && !L[s.dv].inuse && s.dv != s.top && L[s.dv].size == s.dvsize && s.dvsize % 16 == 0
  {}

  lemma DvAttached(L: Layout, segs: seq<Segment>, size: map<int, nat>, s: Spare, r: int)
    requires LayoutOk(L, segs, s) && Indexed(L, size, s, {r}) && s.dv == 0 && r in L && !L[r].inuse && r != s.top
    ensures LayoutOk(L, segs, s.(dv := r, dvsize := L[r].size))
    ensures Indexed(L, size, s.(dv := r, dvsize := L[r].size), {})
  {}

  /** Use the dv chunk: split it, or exhaust it if the remainder would be too small. */
  method MallocFromDv(m: MState, nb: nat) returns (p: int)
    requires m.HeapValid() && nb % 16 == 0 && MIN_CHUNK_SIZE <= nb <= m.dvsize
    modifies m`word, m`dv, m`dvsize, m`L
    ensures m.HeapValid() && Allocated(old(m.L), m.L, p, nb) && p == old(m.dv) > 0
    ensures Rested(old(m.L), m.L, old(m.Spares()), m.Spares(), p, nb)
    ensures PayloadSafe(old(m.word), m.word, old(m.L), m.segs)
  {
    hide Structured, Threaded, Mapped, Tiled, Coalesced, Recorded, Tagged, PayloadSafe, Indexed, MinSized, Take, TopOk;
    var rsize := m.dvsize - nb;
    p := m.dv;
    var dvs := m.dvsize;
    DvLoosened(m.L, m.segs, m.g.size, m.Spares());
    FreeChunkFacts(m.word, m.L, m.segs, m.Spares(), p);
    m.dvsize := 0;
    m.dv := 0;
    assert m.Spares() == old(m.Spares()).(dv := 0, dvsize := 0);
    if rsize >= MIN_CHUNK_SIZE {
      TakePart(m, p, nb, rsize);
      DvAttached(m.L, m.segs, m.g.size, m.Spares(), p + nb);
      FreeChunkFacts(m.word, m.L, m.segs, m.Spares(), p + nb);
      m.dv := p + nb;
      m.dvsize := rsize;
    } else {
      TakeWhole(m, p, dvs);
    }
  }

  /** Split top. */
  method MallocFromTop(m: MState, nb: nat) returns (p: int)
    requires m.HeapValid() && nb % 16 == 0 && MIN_CHUNK_SIZE <= nb < m.topsize
    modifies m`word, m`top, m`topsize, m`L
    ensures m.HeapValid() && Allocated(old(m.L), m.L, p, nb) && p == old(m.top) > 0 && m.topsize == old(m.topsize) - nb
    ensures Used(m.L) == Used(old(m.L))[p := nb] && Rested(old(m.L), m.L, old(m.Spares()), m.Spares(), p, nb)
    ensures PayloadSafe(old(m.word), m.word, old(m.L), m.segs) && m.L == Take(old(m.L), p, nb)
  {
    hide Structured, Threaded, Mapped, Tiled, Coalesced, Recorded, Tagged, PayloadSafe, Indexed, MinSized, TakeTagged,
      Fenced;
    ghost var L, w, s := m.L, m.word, m.Spares();
    p := m.top;
    FreeChunkFacts(w, L, m.segs, s, p);
    PartTags(w, L, s.top, p, nb);
    Loosened(L, m.g.size, s, p);
    m.topsize := m.topsize - nb;
    m.top := p + nb;
    m.word := m.word[HeadAt(p + nb) := HeadWord(Chunk(m.topsize, false, true))]
                    [HeadAt(p) := HeadWord(Chunk(nb, true, true))];
    m.L := Take(L, p, nb);
    TakenState(w, m.word, L, m.segs, s, p, nb, m.g);
    SafeFenced(w, m.word, L, L, m.segs);
    TopSettled(m.L, m.g.size, m.Spares());
  }

  lemma TopSettled(L: Layout, size: map<int, nat>, s: Spare)
    requires Indexed(L, size, s, {s.top})
    ensures Indexed(L, size, s, {})
  {}

  /** What is taken from a bin: a free chunk of the layout. */
  lemma BinnedFacts(w: Memory, L: Layout, segs: seq<Segment>, s: Spare, size: map<int, nat>, v: int)
    requires LayoutOk(L, segs, s) && Tagged(w, L, s.top) && Indexed(L, size, s, {}) && v in size
    ensures v in L && !L[v].inuse && v != s.dv && v != s.top && L[v].size == size[v] && v !in Used(L)
    ensures size[v] % 16 == 0
  {}

  lemma HeapSized(w: Memory, L: Layout, segs: seq<Segment>, s: Spare, size: map<int, nat>)
    requires LayoutOk(L, segs, s) && Tagged(w, L, s.top) && Indexed(L, size, s, {})
    ensures Sized(w, size)
  {
    hide AllContained, AllFollowed, Based, Coalesced, MinSized, Recorded;
    IndexSized(w, L, size);
  }

  /** Whether dv serves a request of nb bytes at least as well as a chunk of the given size. */
  predicate DvFitsAsWell(dvsize: nat, nb: nat, size: nat) { nb <= dvsize <= size }

  /** The unsigned comparison rsize < dvsize - nb, which wraps around when dv is too small. */
  lemma DvTest(dvsize: nat, nb: nat, rsize: nat)
    requires dvsize < LIMIT && nb + rsize < LIMIT
    ensures rsize < (dvsize - nb) % LIMIT <==> !DvFitsAsWell(dvsize, nb, nb + rsize)
  {
    if dvsize < nb { assert (dvsize - nb) % LIMIT == dvsize - nb + LIMIT; }
  }

  lemma ChunkBound(L: Layout, segs: seq<Segment>, p: int)
    requires Tiled(L, segs) && p in L
    ensures End(L, p) < LIMIT
  {
    assert Contained(segs, p, End(L, p));
    var k: nat :| Within(segs, k, p, End(L, p));
    Bounds(segs, k);
  }

  lemma DvBound(L: Layout, segs: seq<Segment>, s: Spare)
    requires LayoutOk(L, segs, s)
    ensures s.dvsize < LIMIT
  {
    if s.dv != 0 { ChunkBound(L, segs, s.dv); }
  }

  /** tmalloc_large: the best fitting tree chunk, unless there is none or dv fits as well. */
  method TmallocLarge(m: MState, nb: nat) returns (v: int)
    requires m.HeapValid() && nb % 16 == 0 && 256 <= nb < LIMIT
    modifies m`word, m`smallmap, m`treemap, m`treebins, m`g, m`L
    ensures m.HeapValid()
    ensures v == 0 ==> m.L == old(m.L) && m.word == old(m.word) && m.g == old(m.g)
    ensures v != 0 ==>
      && Allocated(old(m.L), m.L, v, nb) && InTree(old(m.g), v) && !DvFitsAsWell(m.dvsize, nb, old(m.g).size[v])
      && Rested(old(m.L), m.L, m.Spares(), m.Spares(), v, nb)
    ensures AllBelow40(old(m.g)) && v != 0 ==> IsBestFit(old(m.g), nb, v)
    ensures AllBelow40(old(m.g)) && v == 0 ==>
      forall q :: InTree(old(m.g), q) && nb <= old(m.g).size[q] ==> DvFitsAsWell(m.dvsize, nb, old(m.g).size[q])
    ensures PayloadSafe(old(m.word), m.word, old(m.L), m.segs)
  {
    hide Structured, Threaded, Mapped, Tiled, Coalesced, Recorded, Tagged, PayloadSafe, Indexed, MinSized, Take, TopOk,
      DvOk, Sized, AllBelow40;
    ghost var L, w := m.L, m.word;
    SafeStill(w, L, m.segs);
    HeapSized(w, L, m.segs, m.Spares(), m.g.size);
    var rsize;
    v, rsize := SearchLarge(m, nb);
    DvBound(L, m.segs, m.Spares());
    if v != 0 {
      BinnedFacts(w, L, m.segs, m.Spares(), m.g.size, v);
      ChunkBound(L, m.segs, v);
      FreeChunkFacts(w, L, m.segs, m.Spares(), v);
      DvTest(m.dvsize, nb, rsize);
    }
    if v != 0 && rsize < (m.dvsize - nb) % LIMIT {
      TakeOut(m, v, nb + rsize, {});
      assert {} + {v} == {v};
      ghost var w1 := m.word;
      if rsize < MIN_CHUNK_SIZE {
        TakeWhole(m, v, nb + rsize);
        SafeTrans(w, w1, m.word, L, m.segs);
      } else {
        TakePart(m, v, nb, rsize);
        ghost var w2 := m.word;
        PutAway(m, v + nb, rsize);
        SafeTrans(w, w1, w2, L, m.segs);
        SafeBefore(w, w2, m.word, L, m.L, m.segs, v, nb);
      }
    } else {
      v := 0;
    }
  }

  /** p is a binned chunk of least size among those of at least nb bytes. */
  ghost predicate BestBinned(g: Index, nb: nat, p: int)
  { p in g.size && nb <= g.size[p] && forall q :: q in g.size && nb <= g.size[q] ==> g.size[p] <= g.size[q] }

  lemma SmallFirst(w: Memory, g: Index, i: nat)
    requires Structured(g) && Threaded(w, g) && i < 32 && Small(i) in g.rings
    ensures Fd(w, SmallBinAt(i)) in g.home && g.home[Fd(w, SmallBinAt(i))] == Small(i)
    ensures g.size[Fd(w, SmallBinAt(i))] == 8 * i
  {
    var s := g.rings[Small(i)];
    assert RingHoused(g, Small(i)) && Ring(w, s);
    assert Fd(w, s[0]) == s[Next(s, 0)];
    assert Fits(g.home[s[1]], g.size[s[1]]);
  }

  /** The first used small bin from nb up holds the smallest binned chunks that fit. */
  lemma SmallBest(g: Index, smallmap: Binmap, treemap: Binmap, treebins: seq<int>, nb: nat, i: nat, p: int)
    requires Structured(g) && Mapped(smallmap, treemap, treebins, g) && nb <= 8 * i && i < 32
    requires forall j :: 0 <= j < i && nb <= 8 * j ==> !smallmap[j]
    requires p in g.size && g.size[p] == 8 * i
    ensures BestBinned(g, nb, p)
  {
    forall q | q in g.size && nb <= g.size[q] ensures 8 * i <= g.size[q] {
      assert Fits(g.home[q], g.size[q]);
    }
  }

  lemma NoneSmall(g: Index, smallmap: Binmap, treemap: Binmap, treebins: seq<int>, nb: nat)
    requires Structured(g) && Mapped(smallmap, treemap, treebins, g)
    requires forall j :: 0 <= j < 32 && nb <= 8 * j ==> !smallmap[j]
    ensures forall q :: q in g.size && nb <= g.size[q] ==> InTree(g, q)
  {
    forall q | q in g.size && nb <= g.size[q] ensures InTree(g, q) {
      assert Fits(g.home[q], g.size[q]);
    }
  }

  /** smallmap shifted down by idx: bins idx and idx + 1, and the next used bin above. */
  lemma SmallBits(smallmap: Binmap, idx: nat)
    requires idx < 31
    ensures var b := ShiftDown(smallmap, idx);
      && b[0] == smallmap[idx] && b[1] == smallmap[idx + 1]
      && (b == EMPTY <==> forall j :: idx <= j < 32 ==> !smallmap[j])
      && (b != EMPTY && !b[0] ==>
            && var l := And(ShiftUp(b, idx), LeftBits(Idx2Bit(idx)));
            && l != EMPTY && LeastBit(l) != EMPTY
            && var k := Ctz(LeastBit(l)); idx < k < 32 && smallmap[k] && forall j :: idx <= j < k ==> !smallmap[j])
  {
    var b := ShiftDown(smallmap, idx);
    NonEmpty(b);
    assert forall j :: idx <= j < 32 ==> smallmap[j] == b[j - idx];
    var m := ShiftUp(b, idx);
    assert forall j :: 0 <= j < 32 ==> m[j] == (idx <= j && smallmap[j]);
    assert And(m, LeftBits(Idx2Bit(idx))) == And(LeftBits(Idx2Bit(idx)), m);
    NextAbove(m, idx);
  }

  /** Take nb bytes of the binned chunk p; a remainder that can be a chunk becomes dv. */
  method TakeForSmall(m: MState, p: int, nb: nat, rsize: nat)
    requires m.HeapValid() && p in m.g.size && m.g.size[p] == nb + rsize && nb % 16 == 0 && MIN_CHUNK_SIZE <= nb
    requires m.dvsize < 256
    modifies m`word, m`smallmap, m`treemap, m`treebins, m`g, m`dv, m`dvsize, m`L
    ensures m.HeapValid() && Allocated(old(m.L), m.L, p, nb) && p > 0
    ensures nb < 256 ==> Rested(old(m.L), m.L, old(m.Spares()), m.Spares(), p, nb)
    ensures PayloadSafe(old(m.word), m.word, old(m.L), m.segs)
  {
    hide Structured, Threaded, Mapped, Tiled, Coalesced, Recorded, Tagged, PayloadSafe, Indexed, MinSized, Take, TopOk,
      DvOk;
    ghost var L, w := m.L, m.word;
    BinnedFacts(w, L, m.segs, m.Spares(), m.g.size, p);
    FreeChunkFacts(w, L, m.segs, m.Spares(), p);
    TakeOut(m, p, nb + rsize, {});
    assert {} + {p} == {p};
    ghost var w1 := m.word;
    if rsize < MIN_CHUNK_SIZE {
      TakeWhole(m, p, nb + rsize);
      SafeTrans(w, w1, m.word, L, m.segs);
    } else {
      TakePart(m, p, nb, rsize);
      ghost var w2 := m.word;
      ReplaceDv(m, p + nb, rsize);
      SafeTrans(w, w1, w2, L, m.segs);
      SafeBefore(w, w2, m.word, L, m.L, m.segs, p, nb);
    }
  }

  /** tmalloc_small: the smallest tree chunk of all. */
  method TmallocSmall(m: MState, nb: nat) returns (v: int)
    requires m.HeapValid() && nb % 16 == 0 && MIN_CHUNK_SIZE <= nb < 256 && m.dvsize < 256 && m.treemap != EMPTY
    modifies m`word, m`smallmap, m`treemap, m`treebins, m`g, m`dv, m`dvsize, m`L
    ensures m.HeapValid() && Allocated(old(m.L), m.L, v, nb) && InTree(old(m.g), v) && v > 0
    ensures Rested(old(m.L), m.L, old(m.Spares()), m.Spares(), v, nb)
    ensures AllBelow40(old(m.g)) ==> forall q :: InTree(old(m.g), q) ==> old(m.g).size[v] <= old(m.g).size[q]
    ensures PayloadSafe(old(m.word), m.word, old(m.L), m.segs)
  {
    hide Structured, Threaded, Mapped, LayoutOk, Tagged, PayloadSafe, Indexed, Sized, AllBelow40, Allocated;
    HeapSized(m.word, m.L, m.segs, m.Spares(), m.g.size);
    var rsize;
    v, rsize := SearchSmall(m, nb);
    TakeForSmall(m, v, nb, rsize);
  }

  /** Take the whole first chunk of small bin i: unlink_first_small_chunk and set_inuse_and_pinuse. */
  method TakeFirst(m: MState, i: nat, nb: nat) returns (p: int)
    requires m.HeapValid() && i < 32 && m.smallmap[i] && nb <= 8 * i < nb + 16 && nb % 16 == 0
    modifies m`word, m`smallmap, m`treemap, m`treebins, m`g, m`L
    ensures m.HeapValid() && Allocated(old(m.L), m.L, p, nb) && p in old(m.g).size && old(m.g).size[p] == nb == 8 * i
    ensures p > 0 && Rested(old(m.L), m.L, m.Spares(), m.Spares(), p, nb)
    ensures PayloadSafe(old(m.word), m.word, old(m.L), m.segs) && !InTree(old(m.g), p)
  {
    hide Structured, Threaded, Mapped, LayoutOk, Tagged, PayloadSafe, Indexed;
    ghost var L, w := m.L, m.word;
    p := Fd(m.word, SmallBinAt(i));
    UsedSmall(w, m.g, m.smallmap, m.treemap, m.treebins, i);
    BinnedFacts(w, L, m.segs, m.Spares(), m.g.size, p);
    FreeChunkFacts(w, L, m.segs, m.Spares(), p);
    TakeOut(m, p, 8 * i, {});
    ghost var w1 := m.word;
    assert {} + {p} == {p};
    TakeWhole(m, p, 8 * i);
    SafeTrans(w, w1, m.word, L, m.segs);
  }

  lemma TreeBest(g: Index, nb: nat, p: int)
    requires Structured(g) && InTree(g, p) && nb < 256
    requires forall q :: q in g.size && nb <= g.size[q] ==> InTree(g, q)
    requires forall q :: InTree(g, q) ==> g.size[p] <= g.size[q]
    ensures BestBinned(g, nb, p)
  {
    assert Fits(g.home[p], g.size[p]);
  }

  /** From a larger bin: the next used small one, or else the trees. */
  method TakeLarger(m: MState, nb: nat, smallbits: Binmap) returns (p: int)
    requires m.HeapValid() && nb % 16 == 0 && MIN_CHUNK_SIZE <= nb < 256 && nb > m.dvsize
    requires smallbits == ShiftDown(m.smallmap, nb / 8) && !smallbits[0] && !smallbits[1]
    modifies m`word, m`smallmap, m`treemap, m`treebins, m`g, m`dv, m`dvsize, m`L
    ensures m.HeapValid() && PayloadSafe(old(m.word), m.word, old(m.L), m.segs)
    ensures p != 0 ==>
      && Allocated(old(m.L), m.L, p, nb) && p in old(m.g).size
      && Rested(old(m.L), m.L, old(m.Spares()), m.Spares(), p, nb)
    ensures p != 0 && (InTree(old(m.g), p) ==> AllBelow40(old(m.g))) ==> BestBinned(old(m.g), nb, p)
    ensures p == 0 ==> m.L == old(m.L) && m.word == old(m.word) && m.g == old(m.g) && m.Spares() == old(m.Spares())
    ensures p == 0 ==> forall q :: q in old(m.g).size ==> old(m.g).size[q] < nb
  {
    hide Structured, Threaded, Mapped, LayoutOk, Tagged, PayloadSafe, Indexed, Sized, AllBelow40, Allocated, LeastBit,
      LeftBits, And, ShiftUp, ShiftDown, Idx2Bit, BestBinned, Lowest, Rested;
    ghost var g, w, sm, tm, tb := m.g, m.word, m.smallmap, m.treemap, m.treebins;
    SafeStill(w, m.L, m.segs);
    KeysAgree(g);
    var idx := nb / 8;
    SmallBits(sm, idx);
    p := 0;
    if smallbits != EMPTY {
      var leftbits := And(ShiftUp(smallbits, idx), LeftBits(Idx2Bit(idx)));
      var i := Ctz(LeastBit(leftbits));
      p := Fd(m.word, SmallBinAt(i));
      UsedSmall(w, g, sm, tm, tb, i);
      SmallBest(g, sm, tm, tb, nb, i, p);
      TakeForSmall(m, p, nb, 8 * i - nb);
    } else {
      NoneSmall(g, sm, tm, tb, nb);
      if m.treemap != EMPTY {
        p := TmallocSmall(m, nb);
        if AllBelow40(g) { TreeBest(g, nb, p); }
      } else {
        NoTrees(w, g, sm, tm, tb);
      }
    }
  }

  /** The bins' part of a small request. When it finds nothing, dv or top or the system must serve. */
  method MallocSmall(m: MState, nb: nat) returns (p: int)
    requires m.HeapValid() && nb % 16 == 0 && MIN_CHUNK_SIZE <= nb < 256
    modifies m`word, m`smallmap, m`treemap, m`treebins, m`g, m`dv, m`dvsize, m`L
    ensures m.HeapValid() && PayloadSafe(old(m.word), m.word, old(m.L), m.segs)
    ensures p != 0 ==>
      && Allocated(old(m.L), m.L, p, nb) && p in old(m.g).size
      && Rested(old(m.L), m.L, old(m.Spares()), m.Spares(), p, nb)
    ensures p != 0 && (InTree(old(m.g), p) ==> AllBelow40(old(m.g))) ==> BestBinned(old(m.g), nb, p)
    ensures p != 0 ==> old(m.dvsize) < nb || old(m.g).size[p] == nb
    ensures p == 0 ==> m.L == old(m.L) && m.word == old(m.word) && m.g == old(m.g) && m.Spares() == old(m.Spares())
    ensures p == 0 ==> m.dvsize >= nb || forall q :: q in old(m.g).size ==> old(m.g).size[q] < nb
    ensures p == 0 ==> forall q :: q in old(m.g).size ==> old(m.g).size[q] != nb
  {
    hide Structured, Threaded, Mapped, LayoutOk, Tagged, PayloadSafe, Indexed, Sized, AllBelow40, Allocated, ShiftDown,
      BestBinned, Rested;
    ghost var g, L, w, sm, tm, tb := m.g, m.L, m.word, m.smallmap, m.treemap, m.treebins;
    SafeStill(w, L, m.segs);
    KeysAgree(g);
    var idx := nb / 8;
    var smallbits := ShiftDown(m.smallmap, idx);
    SmallBits(sm, idx);
    p := 0;
    if smallbits[0] || smallbits[1] {
      var i := if smallbits[0] then idx else idx + 1;
      p := TakeFirst(m, i, nb);
      SmallBest(g, sm, tm, tb, nb, i, p);
    } else {
      NoneExact(g, sm, tm, tb, nb);
      if nb > m.dvsize { p := TakeLarger(m, nb, smallbits); }
    }
  }

  lemma NoneExact(g: Index, smallmap: Binmap, treemap: Binmap, treebins: seq<int>, nb: nat)
    requires Structured(g) && Mapped(smallmap, treemap, treebins, g) && nb < 256 && nb % 16 == 0 && !smallmap[nb / 8]
    ensures forall q :: q in g.size ==> g.size[q] != nb
  {
    forall q | q in g.size ensures g.size[q] != nb { assert Fits(g.home[q], g.size[q]); }
  }

  lemma UsedSmall(w: Memory, g: Index, smallmap: Binmap, treemap: Binmap, treebins: seq<int>, i: nat)
    requires Structured(g) && Threaded(w, g) && Mapped(smallmap, treemap, treebins, g) && i < 32 && smallmap[i]
    ensures var p := Fd(w, SmallBinAt(i)); p in g.size && g.size[p] == 8 * i && !InTree(g, p)
  {
    SmallFirst(w, g, i);
  }

  lemma NoTrees(w: Memory, g: Index, smallmap: Binmap, treemap: Binmap, treebins: seq<int>)
    requires Structured(g) && Threaded(w, g) && Mapped(smallmap, treemap, treebins, g) && treemap == EMPTY
    ensures forall q :: !InTree(g, q)
  {
    forall q ensures !InTree(g, q) {
      if InTree(g, q) {
        assert Fits(g.home[q], g.size[q]) && RingHoused(g, g.home[q]);
        EmptyBin(w, g, Nodes(g.rings), g.home[q].b, q);
      }
    }
  }
}
