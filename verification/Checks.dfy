/** The debugging checks of the allocator: every assertion they make holds of a valid heap, but for the
    size range of a tree bin. */
module Checks {
  import opened Words
  import opened Bits
  import opened Rings
  import opened Bins
  import opened Layout
  import opened LayoutFacts
  import opened Heap
  import opened Kernel
  import opened Accounts
  import opened State
  import opened TreeBins
  import opened BestFit

  // ------------------------------------------------------- the assertions on one chunk

  predicate Aligned(p: int) { (p + 16) % 16 == 0 }
  predicate IsInuse(w: Memory, p: int) { Rd(w, HeadAt(p)) % 4 != 1 }
  predicate IsMmapped(w: Memory, p: int) { Rd(w, HeadAt(p)) % 4 == 0 }
  function NextChunk(w: Memory, p: int): int { p + ChunkSize(w, p) }
  function PrevChunk(w: Memory, p: int): int { p - Rd(w, FootAt(p)) }

  /** do_check_any_chunk */
  predicate AnyChunkOk(w: Memory, least: int, p: int)
  { (Aligned(p) || Rd(w, HeadAt(p)) == FENCEPOST_HEAD) && least <= p }

  /** do_check_mmapped_chunk */
  predicate MmappedChunkOk(w: Memory, least: int, page: nat, p: int) requires page > 0 {
    var sz := ChunkSize(w, p);
    && IsMmapped(w, p) && AnyChunkOk(w, least, p) && sz / 8 >= 32
    && (sz + Rd(w, FootAt(p)) + MMAP_FOOT_PAD) % page == 0
    && Rd(w, HeadAt(p + sz)) == FENCEPOST_HEAD && Rd(w, HeadAt(p + sz + 8)) == 0
  }

  /** do_check_inuse_chunk */
  predicate InuseChunkOk(w: Memory, least: int, page: nat, p: int) requires page > 0 {
    && AnyChunkOk(w, least, p) && IsInuse(w, p) && Pinuse(w, NextChunk(w, p))
    && (IsMmapped(w, p) || Pinuse(w, p) || NextChunk(w, PrevChunk(w, p)) == p)
    && (IsMmapped(w, p) ==> MmappedChunkOk(w, least, page, p))
  }

  /** do_check_free_chunk */
  predicate FreeChunkOk(w: Memory, least: int, dv: int, top: int, p: int) {
    var sz, next := ChunkSize(w, p), NextChunk(w, p);
    && AnyChunkOk(w, least, p) && !IsInuse(w, p) && !Pinuse(w, next) && !IsMmapped(w, p)
    && (p == dv || p == top || LooseChunkOk(w, top, p, sz, next))
  }

  predicate LooseChunkOk(w: Memory, top: int, p: int, sz: int, next: int) {
    if sz >= MIN_CHUNK_SIZE then
      && sz % 16 == 0 && Aligned(p) && Rd(w, FootAt(next)) == sz && Pinuse(w, p)
      && (next == top || IsInuse(w, next)) && Bk(w, Fd(w, p)) == p && Fd(w, Bk(w, p)) == p
    else
      sz == 8
  }

  /** do_check_malloced_chunk, for a request that was padded to nb */
  predicate MallocedChunkOk(w: Memory, least: int, page: nat, p: int, nb: nat) requires page > 0 {
    var head := Rd(w, HeadAt(p));
    var sz := head - head % 4;
    && InuseChunkOk(w, least, page, p) && sz % 16 == 0 && sz >= MIN_CHUNK_SIZE && sz >= nb
    && (IsMmapped(w, p) || sz < nb + MIN_CHUNK_SIZE)
  }

  lemma HeapAbove(m: MState, p: int)
    requires m.Valid() && p in m.L
    ensures m.least <= p && 0 < p && p % 16 == 0 && Aligned(p) && AnyChunkOk(m.word, m.least, p) && m.mp.page > 0
  {
    hide Structured, Threaded, Mapped, Indexed, Coalesced, MinSized, PowerOfTwo, Tagged, Fenced;
    assert Contained(m.segs, p, End(m.L, p));
    var k: nat :| Within(m.segs, k, p, End(m.L, p));
    assert m.segs[k].base >= m.least;
  }

  /** What the head of a chunk says. */
  ghost predicate HeadSound(w: Memory, p: int, c: Chunk) {
    && ChunkSize(w, p) == c.size && NextChunk(w, p) == p + c.size && Pinuse(w, p) == c.pinuse
    && Rd(w, HeadAt(p)) - Rd(w, HeadAt(p)) % 4 == c.size && Rd(w, HeadAt(p)) != FENCEPOST_HEAD
    && (IsInuse(w, p) <==> c.inuse || !c.pinuse) && (IsMmapped(w, p) <==> !c.inuse && !c.pinuse)
  }

  lemma HeadSoundIs(w: Memory, p: int, c: Chunk)
    requires Rd(w, HeadAt(p)) == HeadWord(c) && c.size % 16 == 0
    ensures HeadSound(w, p, c)
  {
    HeadFields(w, p, c);
    HeadBits(c.size / 16, if c.inuse then 1 else 0, if c.pinuse then 1 else 0);
    hide HeadWord, ChunkSize, Pinuse;
  }

  lemma HeapHead(m: MState, p: int)
    requires m.HeapValid() && p in m.L
    ensures HeadSound(m.word, p, m.L[p]) && m.L[p].size % 16 == 0 && m.L[p].size > 0
  {
    hide Structured, Threaded, Mapped, Indexed, Coalesced, MinSized, Disjoint, AllContained, AllFollowed, Based,
      HeadSound,
      Fenced;
    HeadSoundIs(m.word, p, m.L[p]);
  }

  /** What follows a chunk in use: another chunk or the fenceposts. */
  lemma InuseNext(m: MState, p: int)
    requires m.HeapValid() && p in m.L && m.L[p].inuse
    ensures Pinuse(m.word, End(m.L, p))
  {
    var e := End(m.L, p);
    hide Structured, Threaded, Mapped, Indexed, Coalesced, MinSized;
    assert Followed(m.L, m.segs, p);
    if e in m.L { HeapHead(m, e); } else { EndPosts(m.word, m.L, m.segs, m.Spares(), p); }
  }

  lemma EndPosts(w: Memory, L: Layout, segs: seq<Segment>, s: Spare, p: int)
    requires SegmentsApart(segs) && Disjoint(L) && Shaped(L) && TopOk(L, segs, s) && Fenced(w, segs)
    requires p in L && L[p].inuse && IsLimit(segs, End(L, p))
    ensures Pinuse(w, End(L, p))
  {
    var e := End(L, p);
    assert ChunksApart(L, p, s.top);
    var k :| 0 <= k < |segs| && e == LimitOf(segs, k);
    assert Ended(w, segs, k) && segs[k].base < LimitOf(segs, k);
    assert k != 0 && PastLimit(segs, k, HeadAt(e));
  }

  /** do_check_inuse_chunk passes on every chunk in use, segment records included. */
  lemma InuseChecked(m: MState, p: int)
    requires m.Valid() && p in m.L && m.L[p].inuse
    ensures m.mp.page > 0 && InuseChunkOk(m.word, m.least, m.mp.page, p) && !IsMmapped(m.word, p)
  {
    HeapAbove(m, p);
    HeapHead(m, p);
    InuseNext(m, p);
    hide MState.HeapValid, BooksOk, ParamsOk, Pinuse, IsInuse, IsMmapped, AnyChunkOk, ChunkSize;
    if !Pinuse(m.word, p) { FreeBefore(m, p); }
  }

  lemma FreeBefore(m: MState, p: int)
    requires m.HeapValid() && p in m.L && !m.L[p].pinuse
    ensures NextChunk(m.word, PrevChunk(m.word, p)) == p
  {
    hide Structured, Threaded, Mapped, Indexed, Coalesced, MinSized, Recorded, Fenced;
    PrevFree(m.word, m.L, m.segs, m.Spares(), p);
    HeapHead(m, PrevChunk(m.word, p));
  }

  /** It passes on a directly mapped chunk. */
  lemma DirectChecked(m: MState, p: int)
    requires m.Valid() && p in m.mm
    ensures m.mp.page > 0 && InuseChunkOk(m.word, m.least, m.mp.page, p) && IsMmapped(m.word, p)
    ensures ChunkSize(m.word, p) == m.mm[p].base + m.mm[p].size - MMAP_FOOT_PAD - p
    ensures var head := Rd(m.word, HeadAt(p)); head == ChunkSize(m.word, p) >= 256 && head % 16 == 0 && head % 4 == 0
  {
    hide MState.HeapValid, PowerOfTwo;
    assert MappedChunk(m.word, p, m.mm[p]) && m.least <= m.mm[p].base && m.mm[p].size % m.mp.page == 0;
    hide ParamsOk, BooksOk;
    DirectOk(m.word, m.least, m.mp.page, p, m.mm[p]);
  }

  lemma DirectOk(w: Memory, least: int, page: nat, p: int, r: Region)
    requires MappedChunk(w, p, r) && least <= r.base && page > 0 && r.size % page == 0
    ensures InuseChunkOk(w, least, page, p) && IsMmapped(w, p)
    ensures ChunkSize(w, p) == r.base + r.size - MMAP_FOOT_PAD - p
    ensures var head := Rd(w, HeadAt(p)); head == ChunkSize(w, p) >= 256 && head % 16 == 0 && head % 4 == 0
  {
    var head := Rd(w, HeadAt(p));
    var n := r.base + r.size;
    Sixteens(n, p, head);
    hide MappedChunk;
    assert ChunkSize(w, p) == head && Aligned(p) && IsInuse(w, p) && IsMmapped(w, p);
    hide ChunkSize, Aligned, IsInuse, IsMmapped;
    assert p + head == n - MMAP_FOOT_PAD && HeadAt(p + head + 8) == HeadAt(n - MMAP_FOOT_PAD) + 8;
    assert head + Rd(w, FootAt(p)) + MMAP_FOOT_PAD == r.size;
  }

  lemma Sixteens(n: int, p: int, head: int)
    requires n % 16 == 0 && p % 16 == 0 && head == n - 32 - p && head >= 256
    ensures head % 16 == 0 && head % 8 == 0 && head % 4 == 0 && head / 8 >= 32 && (p + 16) % 16 == 0
  {
    var a := Sixteenth(n);
    var b := Sixteenth(p);
    Remainders(a - 2 - b, 0);
    Eighths(a - 2 - b);
    Multiples16(p, 16);
  }

  lemma Sixteenth(n: int) returns (q: int)
    requires n % 16 == 0
    ensures n == 16 * q
  {
    q := n / 16;
  }

  lemma Eighths(k: nat) ensures 16 * k / 8 == 2 * k {}

  /** do_check_free_chunk passes on every free chunk but top. */
  lemma FreeChecked(m: MState, p: int)
    requires m.Valid() && p in m.L && !m.L[p].inuse && p != m.top
    ensures FreeChunkOk(m.word, m.least, m.dv, m.top, p)
    ensures End(m.L, p) in m.L && m.L[End(m.L, p)].inuse
  {
    HeapAbove(m, p);
    HeapHead(m, p);
    FreePlaced(m, p);
    HeapHead(m, End(m.L, p));
    if p != m.dv { RingLinks(m.word, m.g, p); }
    hide MState.HeapValid, BooksOk, ParamsOk, Pinuse, IsInuse, IsMmapped, AnyChunkOk, ChunkSize;
  }

  /** A free chunk: the one before it and the one after are in use, and the latter knows. */
  lemma FreePlaced(m: MState, p: int)
    requires m.HeapValid() && p in m.L && !m.L[p].inuse && p != m.top
    ensures m.L[p].pinuse && m.L[p].size >= MIN_CHUNK_SIZE && (p != m.dv ==> p in m.g.size)
    ensures var e := End(m.L, p); e in m.L && m.L[e].inuse && !m.L[e].pinuse && Rd(m.word, FootAt(e)) == m.L[p].size
  {
    hide Structured, Threaded, Mapped, Fenced;
    FreeHasNext(m.L, m.segs, m.Spares(), p);
    assert Followed(m.L, m.segs, p) && Isolated(m.L, p);
  }

  /** The links of a binned chunk and its neighbours agree. */
  lemma RingLinks(w: Memory, g: Index, p: int)
    requires Structured(g) && Threaded(w, g) && p in g.size
    ensures Bk(w, Fd(w, p)) == p && Fd(w, Bk(w, p)) == p
  {
    var s := g.rings[g.home[p]];
    assert Ring(w, s);
    var k :| 0 <= k < |s| && s[k] == p;
    hide Ring;
    RingAgrees(w, s, k);
  }

  // --------------------------------------------------------------------- top

  /** segment_holding: the first segment that holds an address, or -1 */
  function SegmentHolding(segs: seq<Segment>, a: int, k: nat): int
    requires k <= |segs|
    decreases |segs| - k
  {
    if k == |segs| then -1
    else if segs[k].base <= a < segs[k].base + segs[k].size then k
    else SegmentHolding(segs, a, k + 1)
  }

  /** do_check_top_chunk */
  predicate TopChunkOk(w: Memory, least: int, segs: seq<Segment>, top: int, topsize: nat) {
    var sp := SegmentHolding(segs, top, 0);
    var head := Rd(w, HeadAt(top));
    var sz := head - head % 4;
    && 0 <= sp < |segs| && AnyChunkOk(w, least, top) && sz == topsize && sz > 0
    && sz == segs[sp].base + segs[sp].size - top - TOP_FOOT_SIZE
    && Pinuse(w, top) && !Pinuse(w, top + sz)
  }

  lemma TopChecked(m: MState)
    requires m.Valid() && m.top != 0
    ensures TopChunkOk(m.word, m.least, m.segs, m.top, m.topsize)
  {
    TopPlaced(m);
    HeapAbove(m, m.top);
    HeapHead(m, m.top);
    hide MState.HeapValid, BooksOk, ParamsOk, AnyChunkOk;
  }

  /** top is the last chunk of the first segment; past it comes a head with the in-use bits clear. */
  lemma TopPlaced(m: MState)
    requires m.HeapValid() && m.top != 0
    ensures m.top in m.L && m.L[m.top] == Chunk(m.topsize, false, true) && |m.segs| > 0
    ensures m.segs[0].base <= m.top && End(m.L, m.top) == m.segs[0].base + m.segs[0].size - TOP_FOOT_SIZE
    ensures !Pinuse(m.word, End(m.L, m.top))
  {
    hide Structured, Threaded, Mapped, Indexed, Recorded, MinSized, Tagged;
    assert Contained(m.segs, m.top, End(m.L, m.top)) && Isolated(m.L, m.top);
    var k: nat :| Within(m.segs, k, m.top, End(m.L, m.top));
    Bounds(m.segs, k);
    Bounds(m.segs, 0);
    assert SegApart(m.segs, 0, k);
    assert Ended(m.word, m.segs, 0);
  }

  // ---------------------------------------------------------------- bins

  /** The loops of bin_find over one ring. */
  method RingHolds(w: Memory, start: int, x: int, ghost s: seq<int>) returns (found: bool)
    requires Ring(w, s) && s[0] == start
    ensures found <==> x in s
  {
    var p := start;
    ghost var k := 0;
    while true
      invariant 0 <= k < |s| && p == s[k] && x !in s[..k]
      decreases |s| - k
    {
      if p == x { return true; }
      p := Fd(w, p);
      if p == start { break; }
      k := k + 1;
    }
    assert s[..k] + [s[k]] == s;
    return false;
  }

  /** bin_find: whether a chunk is in the bins */
  method BinFind(m: MState, x: int) returns (found: bool)
    requires m.Valid() && x in m.L
    ensures found <==> x in m.g.size
  {
    HeapAbove(m, x);
    HeapHead(m, x);
    BinnedSize(m, x);
    hide MState.HeapValid, BooksOk, ParamsOk;
    assert m.BinsValid();
    var size := ChunkSize(m.word, x);
    if size / 8 < 32 {
      found := FindSmall(m, x, size);
    } else {
      found := FindLarge(m, x, size);
    }
  }

  lemma BinnedSize(m: MState, x: int)
    requires m.HeapValid() && x in m.L
    ensures m.BinsValid() && Sized(m.word, m.g.size) && m.L[x].size < LIMIT
    ensures x in m.g.size ==> m.g.size[x] == m.L[x].size
  {
    IndexSized(m.word, m.L, m.g.size);
    assert Contained(m.segs, x, End(m.L, x));
    var k: nat :| Within(m.segs, k, x, End(m.L, x));
    assert m.segs[k].base > 0 && LimitOf(m.segs, k) < LIMIT;
  }

  method FindSmall(m: MState, x: int, size: nat) returns (found: bool)
    requires m.BinsValid() && x > 0 && size < 256 && (x in m.g.size ==> m.g.size[x] == size)
    ensures found <==> x in m.g.size
  {
    var i := size / 8;
    ghost var g := m.g;
    if x in g.size { assert Fits(g.home[x], g.size[x]); }
    found := false;
    if m.smallmap[i] {
      ghost var s := g.rings[Small(i)];
      assert RingHoused(g, Small(i)) && Ring(m.word, s);
      found := RingHolds(m.word, SmallBinAt(i), x, s);
      if x in s { assert x in g.home; }
    }
  }

  method FindLarge(m: MState, x: int, size: nat) returns (found: bool)
    requires m.BinsValid() && Sized(m.word, m.g.size) && 256 <= size < LIMIT
    requires x in m.g.size ==> m.g.size[x] == size
    ensures found <==> x in m.g.size
  {
    var i := TreeIndex(size);
    ghost var g, node := m.g, Nodes(m.g.rings);
    if x in g.size { assert Fits(g.home[x], g.size[x]); }
    found := false;
    if m.treemap[i] {
      var t, h := FindSize(m, x, size, i, node);
      if t != 0 {
        HomeOfNode(g, node, h);
        ghost var s := g.rings[h];
        assert RingHoused(g, h) && Ring(m.word, s);
        found := RingHolds(m.word, t, x, s);
        if x in g.size { assert OneNode(g, x, t); }
        if x in s { assert x in g.home; }
      }
    } else if x in g.size {
      NodeOfHome(g, node, x);
      RootAbove(m.word, node, g.home[x]);
    }
  }

  /** The walk down a tree bin to the node of a size. If chunk x of that size is in the bins, there is one. */
  method FindSize(m: MState, x: int, size: nat, i: nat, ghost node: map<Home, int>) returns (t: int, ghost h: Home)
    requires m.BinsValid() && Sized(m.word, m.g.size) && 256 <= size < LIMIT && i == TreeIndex(size)
    requires m.treemap[i] && node == Nodes(m.g.rings)
    requires x in m.g.size ==> m.g.size[x] == size && InBin(m.g, x, i)
    ensures t != 0 ==> h in node && node[h] == t && t in m.g.size && m.g.size[t] == size
    ensures x in m.g.size ==> t != 0
  {
    ghost var g, bits := m.g, SizeBits(size, i);
    if x in g.size { RootBelow(g.home[x].path); }
    t, h := m.treebins[i], Tree(i, Root);
    assert RingHoused(g, h) && h in node && t == NodeAt(node, h);
    assert x in g.size ==> Under(g, x, h);
    var k := Bits.Shl(size, LeftShift(i));
    NodeWords(m.word, g, node, h);
    hide Structured, Linked, Ringed, Chained, Mapped, Sized;
    while t != 0 && ChunkSize(m.word, t) != size
      invariant k < LIMIT
      invariant t != 0 ==>
        h in node && node[h] == t && h.Tree? && h.b == i && Follows(bits, h.path) && k == Bits.Shl(bits, Depth(h.path))
      invariant x in g.size ==> t != 0 && Under(g, x, h)
      decreases if t == 0 then 0 else |node| - Depth(h.path)
    {
      NodeWords(m.word, g, node, h);
      var right := k >= HALF;
      StepFollows(bits, h.path);
      if x in g.size { FindStep(m.word, g, node, x, h, size); }
      k := Shl1(k);
      t := Child(m.word, t, right);
      h := Kid(h, right);
      if t != 0 { NodeWords(m.word, g, node, h); }
    }
    if t != 0 { NodeWords(m.word, g, node, h); }
  }

  lemma {:induction false} RootBelow(p: Path)
    ensures Below(p, Root)
  {
    if p.Step? { RootBelow(p.up); }
  }

  lemma FindStep(w: Memory, g: Index, node: map<Home, int>, x: int, h: Home, size: nat)
    requires Structured(g) && Linked(w, node) && node == Nodes(g.rings) && h in node && Under(g, x, h)
    requires x in g.size && g.size[x] == size && node[h] in g.size && g.size[node[h]] != size
    requires size < LIMIT && h.b == TreeIndex(size)
    ensures var right := Msb(SizeBits(size, h.b), Depth(h.path)); Under(g, x, Kid(h, right)) && Kid(h, right) in node
  {
    HomeOfNode(g, node, h);
    NodeOfHome(g, node, x);
    assert OneNode(g, x, node[h]) && Fits(g.home[x], g.size[x]);
    var p := g.home[x].path;
    BelowSplit(p, h.path);
    var right := Below(p, Step(h.path, true));
    FollowsUp(SizeBits(size, h.b), p, Step(h.path, right));
    NodesAbove(w, node, g.home[x], Step(h.path, right));
  }

  /** do_check_smallbin: it passes on every small bin. */
  method CheckSmallBin(m: MState, i: nat) returns (ok: bool)
    requires m.Valid() && i < 32
    ensures ok
  {
    var b := SmallBinAt(i);
    var p := Bk(m.word, b);
    ghost var g, s := m.g, [];
    var empty := !m.smallmap[i];
    if !empty {
      s := g.rings[Small(i)];
      assert RingHoused(g, Small(i)) && Ring(m.word, s);
      assert Bk(m.word, s[0]) == s[|s| - 1];
    }
    ok := p != b || empty;
    if !empty {
      ghost var k := |s| - 1;
      while p != b
        invariant 0 <= k < |s| && p == s[k] && ok
        decreases k
      {
        SmallChecked(m, i, k);
        var q := NextChunk(m.word, p);
        ok := ok && FreeChunkOk(m.word, m.least, m.dv, m.top, p) && ChunkSize(m.word, p) / 8 == i
          && (Bk(m.word, p) == b || ChunkSize(m.word, Bk(m.word, p)) == ChunkSize(m.word, p))
          && (Rd(m.word, HeadAt(q)) == FENCEPOST_HEAD || InuseChunkOk(m.word, m.least, m.mp.page, q));
        p := Bk(m.word, p);
        k := k - 1;
      }
    }
  }

  lemma SmallChecked(m: MState, i: nat, k: nat)
    requires m.Valid() && i < 32 && Small(i) in m.g.rings && 0 < k < |m.g.rings[Small(i)]|
    ensures var s := m.g.rings[Small(i)]; var p := s[k];
      && FreeChunkOk(m.word, m.least, m.dv, m.top, p) && ChunkSize(m.word, p) == 8 * i
      && InuseChunkOk(m.word, m.least, m.mp.page, NextChunk(m.word, p))
      && Bk(m.word, p) == s[k - 1] && s[0] == SmallBinAt(i) && (k > 1 ==> ChunkSize(m.word, s[k - 1]) == 8 * i)
      && s[0] != p
  {
    hide MState.HeapValid, MState.BooksValid, FreeChunkOk, InuseChunkOk;
    SmallRing(m, i, k);
    var s := m.g.rings[Small(i)];
    var p := s[k];
    SmallMember(m, i, p);
    if k > 1 {
      SmallRing(m, i, k - 1);
      SmallMember(m, i, s[k - 1]);
    }
    FreeChecked(m, p);
    HeapHead(m, p);
    InuseChecked(m, End(m.L, p));
  }

  lemma SmallRing(m: MState, i: nat, k: nat)
    requires m.HeapValid() && i < 32 && Small(i) in m.g.rings && 0 < k < |m.g.rings[Small(i)]|
    ensures var s := m.g.rings[Small(i)];
      && s[k] in m.g.home && m.g.home[s[k]] == Small(i) && Bk(m.word, s[k]) == s[k - 1]
      && s[0] == SmallBinAt(i) && s[0] != s[k]
  {
    hide LayoutOk, Tagged, Indexed, Fenced, Linked, Chained, Mapped, Sorted;
    var s := m.g.rings[Small(i)];
    assert RingHoused(m.g, Small(i)) && Ring(m.word, s);
    assert Bk(m.word, s[k]) == s[Prev(s, k)];
  }

  lemma SmallMember(m: MState, i: nat, p: int)
    requires m.HeapValid() && p in m.g.home && m.g.home[p] == Small(i)
    ensures p in m.L && !m.L[p].inuse && p != m.top && p != m.dv && ChunkSize(m.word, p) == 8 * i
  {
    assert p in m.g.size && Fits(m.g.home[p], m.g.size[p]);
    HeapHead(m, p);
  }

  // ------------------------------------------------------------------ trees

  ghost predicate SoundUnder(g: Index, h: Home) requires g.home.Keys == g.size.Keys
  { forall q :: Under(g, q, h) ==> IndexSound(g.size[q]) }

  /** Every large free chunk has a size whose bin index is the right one. */
  ghost predicate AllSound(g: Index) requires g.home.Keys == g.size.Keys
  { forall q :: InTree(g, q) ==> IndexSound(g.size[q]) }

  /** What do_check_tree asserts of every chunk on a chain. */
  predicate ChainOk(w: Memory, least: int, u: int, i: int, size: int) {
    && AnyChunkOk(w, least, u) && TreeBin(w, u) == i && ChunkSize(w, u) == size
    && !IsInuse(w, u) && !Pinuse(w, NextChunk(w, u)) && Bk(w, Fd(w, u)) == u && Fd(w, Bk(w, u)) == u
  }

  /** The parent of u points at it: another node or the tree bin. */
  predicate HookOk(w: Memory, treebins: seq<int>, u: int) {
    var p := Parent(w, u);
    p != u && (Child(w, p, false) == u || Child(w, p, true) == u
               || exists i :: 0 <= i < |treebins| && p == TreeBinAt(i) && treebins[i] == u)
  }

  lemma ChainChecked(m: MState, u: int)
    requires m.Valid() && InTree(m.g, u)
    ensures u in m.g.size && u > 0 && ChunkSize(m.word, u) == m.g.size[u] && 256 <= m.g.size[u] < LIMIT
    ensures ChainOk(m.word, m.least, u, TreeIndex(m.g.size[u]), m.g.size[u])
    ensures TreeBin(m.word, u) == TreeIndex(m.g.size[u])
  {
    assert u in m.g.size && Fits(m.g.home[u], m.g.size[u]);
    assert u in m.L;
    FreeChecked(m, u);
    HeapHead(m, u);
    RingLinks(m.word, m.g, u);
    hide Structured, Ringed, Linked, Mapped, LayoutOk, Tagged, Fenced, BooksOk, ParamsOk;
    assert TreeBin(m.word, u) == m.g.home[u].b;
  }

  lemma HookChecked(m: MState, node: map<Home, int>, h: Home)
    requires m.BinsValid() && node == Nodes(m.g.rings) && h in node
    ensures h.Tree? && Parent(m.word, node[h]) != 0 && HookOk(m.word, m.treebins, node[h])
    ensures forall b :: Kid(h, b) in node ==>
      Parent(m.word, node[Kid(h, b)]) == node[h] && node[Kid(h, b)] != node[h] && node[Kid(h, b)] > 0
  {
    var g := m.g;
    NodesInjective(g);
    HomeOfNode(g, node, h);
    assert RingHoused(g, h) && NodeLinked(m.word, node, h);
    assert node[h] > 0;
    if h.path.Step? {
      assert NodeLinked(m.word, node, Up(h)) && Kid(Up(h), h.path.right) == h;
      assert node[Up(h)] > 0 && Depth(h.path) == Depth(Up(h).path) + 1;
    } else {
      assert h == Tree(h.b, Root) && m.treebins[h.b] == node[h];
    }
    forall b | Kid(h, b) in node
      ensures Parent(m.word, node[Kid(h, b)]) == node[h] && node[Kid(h, b)] != node[h] && node[Kid(h, b)] > 0
    {
      assert NodeLinked(m.word, node, Kid(h, b)) && Up(Kid(h, b)) == h;
      assert Depth(Kid(h, b).path) == Depth(h.path) + 1;
    }
  }

  /** The runtime checks of tmalloc_large, tmalloc_small and unlink_large_chunk on a tree chunk pass: its ring links
      agree, and it, its ring neighbours, its children and a parent that is a node are allowed addresses. */
  lemma LargeChecked(m: MState, x: int)
    requires m.Valid() && InTree(m.g, x)
    ensures m.least <= x && m.least <= Fd(m.word, x) && m.least <= Bk(m.word, x)
    ensures Bk(m.word, Fd(m.word, x)) == x && Fd(m.word, Bk(m.word, x)) == x
    ensures forall b :: Child(m.word, x, b) != 0 ==> m.least <= Child(m.word, x, b)
    ensures var p := Parent(m.word, x); p == 0 || m.least <= p || x in m.treebins
  {
    HeapBins(m);
    hide MState.HeapValid, BooksOk, ParamsOk, Structured, Threaded, Linked, Sized, MState.BinsValid;
    var w, g := m.word, m.g;
    var k := RingPosition(w, g, x);
    BinnedAbove(m, x);
    BinnedAbove(m, Fd(w, x));
    BinnedAbove(m, Bk(w, x));
    LargeLinks(m, x);
    forall b | Child(w, x, b) != 0 ensures m.least <= Child(w, x, b) { BinnedAbove(m, Child(w, x, b)); }
    if Parent(w, x) in g.size { BinnedAbove(m, Parent(w, x)); }
  }

  /** What the tree words of a chunk lead to. */
  lemma LargeLinks(m: MState, x: int)
    requires m.BinsValid() && InTree(m.g, x)
    ensures forall b :: Child(m.word, x, b) == 0 || Child(m.word, x, b) in m.g.size
    ensures var p := Parent(m.word, x); p == 0 || p in m.g.size || x in m.treebins
  {
    hide Ringed, Sorted, Spaced;
    var w, g, node, h := m.word, m.g, Nodes(m.g.rings), m.g.home[x];
    NodesInjective(g);
    assert h in node;
    if x == node[h] {
      assert NodeLinked(w, node, h) && RingHoused(g, h);
      if h.path.Root? { assert m.treebins[h.b] == NodeAt(node, h); }
    }
  }

  lemma BinnedAbove(m: MState, p: int)
    requires m.Valid() && p in m.g.size
    ensures m.least <= p
  {
    hide MState.BinsValid, LayoutOk, Tagged, Fenced, BooksOk, ParamsOk;
    assert p in m.L;
    HeapAbove(m, p);
  }

  /** The chain of a tree node: chunks of one size, of which only the first is linked into the tree. */
  lemma ChainMember(m: MState, node: map<Home, int>, h: Home, k: nat)
    requires m.Valid() && node == Nodes(m.g.rings) && h in node && k < |m.g.rings[h]|
    ensures var s := m.g.rings[h]; var u := s[k];
      && InTree(m.g, u) && u in m.g.size && node[h] in m.g.size && m.g.size[u] == m.g.size[node[h]] && u > 0
      && Fd(m.word, u) == (if k + 1 < |s| then s[k + 1] else node[h]) && (k + 1 < |s| ==> s[k + 1] != node[h])
      && (k > 0 ==> Unlinked(m.word, u))
  {
    hide LayoutOk, Tagged, Indexed, Fenced, BooksOk, ParamsOk, Mapped;
    var g, s := m.g, m.g.rings[h];
    assert RingHoused(g, h) && Ring(m.word, s);
    assert s[k] in g.home && s[0] in g.home && OneNode(g, s[k], s[0]);
    assert Fd(m.word, s[k]) == s[Next(s, k)];
  }

  /** A subtree is its node and the subtrees of its children. */
  lemma SoundSplit(w: Memory, g: Index, node: map<Home, int>, h: Home)
    requires Structured(g) && Linked(w, node) && node == Nodes(g.rings) && h in node
    ensures h.Tree? && node[h] in g.size
    ensures SoundUnder(g, h) <==>
      IndexSound(g.size[node[h]]) && SoundUnder(g, Kid(h, false)) && SoundUnder(g, Kid(h, true))
  {
    HomeOfNode(g, node, h);
    assert Under(g, node[h], h);
    forall q, b: bool | Under(g, q, Kid(h, b)) ensures Under(g, q, h) { BelowUp(g.home[q].path, h.path, b); }
    forall q | Under(g, q, h) ensures g.size[q] == g.size[node[h]] || exists b :: Under(g, q, Kid(h, b)) {
      if g.home[q] == h {
        assert OneNode(g, q, node[h]);
      } else {
        BelowSplit(g.home[q].path, h.path);
        assert Under(g, q, Kid(h, false)) || Under(g, q, Kid(h, true));
      }
    }
  }

  lemma {:induction false} BelowUp(p: Path, q: Path, b: bool)
    requires Below(p, Step(q, b))
    ensures Below(p, q)
  {
    if p != Step(q, b) { BelowUp(p.up, q, b); } else { assert Below(q, q); }
  }

  lemma NothingUnder(w: Memory, g: Index, node: map<Home, int>, h: Home, b: bool)
    requires Structured(g) && Linked(w, node) && node == Nodes(g.rings) && h.Tree? && Kid(h, b) !in node
    ensures SoundUnder(g, Kid(h, b))
  {
    forall q | InTree(g, q) ensures !Under(g, q, Kid(h, b)) {
      NodeOfHome(g, node, q);
      if Under(g, q, Kid(h, b)) { NodesAbove(w, node, g.home[q], Step(h.path, b)); }
    }
  }

  lemma ChildrenOrder(w: Memory, g: Index, node: map<Home, int>, h: Home)
    requires Structured(g) && Linked(w, node) && node == Nodes(g.rings) && h in node && h.Tree?
    requires Kid(h, false) in node && Kid(h, true) in node
    requires SoundUnder(g, Kid(h, false)) && SoundUnder(g, Kid(h, true))
    ensures node[Kid(h, false)] in g.size && node[Kid(h, true)] in g.size
    ensures g.size[node[Kid(h, false)]] < g.size[node[Kid(h, true)]]
  {
    var p, q := node[Kid(h, false)], node[Kid(h, true)];
    HomeOfNode(g, node, Kid(h, false));
    HomeOfNode(g, node, Kid(h, true));
    assert Under(g, p, Kid(h, false)) && Under(g, q, Kid(h, true));
    assert Fits(g.home[p], g.size[p]) && Fits(g.home[q], g.size[q]);
    TreeIndexBrackets(g.size[p]);
    TreeIndexBrackets(g.size[q]);
    hide IndexSound, TreeIndex;
    SidesOrderAt(g, p, q, h);
  }

  /** do_check_tree. It passes exactly if every chunk of the subtree has a size of the right bin. */
  method CheckTree(m: MState, t: int, ghost node: map<Home, int>, ghost h: Home) returns (ok: bool)
    requires m.Valid() && node == Nodes(m.g.rings) && h in node && node[h] == t
    ensures ok <==> SoundUnder(m.g, h)
    decreases |node| - Depth(h.path), 1, 0
  {
    hide MState.HeapValid, MState.BinsValid, MState.BooksValid, Structured, Threaded, Linked, Sized, SoundUnder,
      ChainOk,
      TreeIndex, Bracketed, IndexSound, Unlinked, InTree;
    HeapBins(m);
    ghost var g, s := m.g, m.g.rings[h];
    ChainMember(m, node, h, 0);
    ChainChecked(m, t);
    SoundSplit(m.word, g, node, h);
    hide MState.Valid;
    var size, i := ChunkSize(m.word, t), TreeBin(m.word, t);
    var idx := TreeIndex(size);
    TreeIndexBrackets(size);
    ok := i == idx && size >= 256 && Bracketed(size, idx);
    var u, head := t, 0;
    ghost var k := 0;
    ghost var below := SoundUnder(g, Kid(h, false)) && SoundUnder(g, Kid(h, true));
    while true
      invariant 0 <= k < |s| && u == s[k] && (head == 0 <==> k == 0)
      invariant ok <==> IndexSound(size) && (k > 0 ==> below)
      decreases |s| - k
    {
      ChainMember(m, node, h, k);
      var good;
      good, head := CheckMember(m, u, i, size, head, node, h, k);
      ok := ok && good;
      u := Fd(m.word, u);
      if u == t { break; }
      k := k + 1;
    }
    ok := ok && head != 0;
  }

  /** The assertions of do_check_tree on chunk u of a chain; the one with a parent must be the first met. */
  method CheckMember(m: MState, u: int, i: int, size: int, head: int, ghost node: map<Home, int>, ghost h: Home,
                     ghost k: nat)
    returns (ok: bool, head': int)
    requires m.Valid() && node == Nodes(m.g.rings) && h in node && h.Tree? && k < |m.g.rings[h]| && u == m.g.rings[h][k]
    requires node[h] in m.g.size && size == m.g.size[node[h]] && i == TreeIndex(m.g.size[node[h]])
    requires head == 0 <==> k == 0
    ensures head' != 0
    ensures ok <==> (k == 0 ==> SoundUnder(m.g, Kid(h, false)) && SoundUnder(m.g, Kid(h, true)))
    decreases |node| - Depth(h.path), 0, 2
  {
    hide MState.HeapValid, MState.BinsValid, MState.BooksValid, Structured, Threaded, Linked, Sized, SoundUnder, HookOk,
      ChainOk, TreeIndex;
    HeapBins(m);
    HookChecked(m, node, h);
    ChainMember(m, node, h, 0);
    ChainMember(m, node, h, k);
    ChainChecked(m, u);
    ok, head' := ChainOk(m.word, m.least, u, i, size), head;
    if Parent(m.word, u) == 0 {
      ok := ok && Child(m.word, u, false) == 0 && Child(m.word, u, true) == 0;
    } else {
      var hooked := head == 0 && HookOk(m.word, m.treebins, u);
      head' := u;
      var kids := CheckChildren(m, u, node, h);
      ok := ok && hooked && kids;
    }
  }

  lemma HeapBins(m: MState)
    requires m.HeapValid()
    ensures m.BinsValid() && Structured(m.g) && Threaded(m.word, m.g) && m.g.home.Keys == m.g.size.Keys
    ensures Linked(m.word, Nodes(m.g.rings)) && Sized(m.word, m.g.size)
  {
    hide Mapped, Fenced, Ringed, Chained, Linked, Spaced, Sorted, Coalesced, MinSized, Recorded, Disjoint, AllContained,
      AllFollowed, Based;
    IndexSized(m.word, m.L, m.g.size);
  }

  method CheckChildren(m: MState, u: int, ghost node: map<Home, int>, ghost h: Home) returns (ok: bool)
    requires m.Valid() && node == Nodes(m.g.rings) && h in node && h.Tree? && node[h] == u
    ensures ok <==> SoundUnder(m.g, Kid(h, false)) && SoundUnder(m.g, Kid(h, true))
    decreases |node| - Depth(h.path), 0, 1
  {
    hide MState.HeapValid, MState.BinsValid, MState.BooksValid, Structured, Threaded, Sized, SoundUnder, HookOk;
    HeapBins(m);
    HookChecked(m, node, h);
    var c0 := CheckChild(m, u, false, node, h);
    var c1 := CheckChild(m, u, true, node, h);
    ok := c0 && c1;
    var left, right := Child(m.word, u, false), Child(m.word, u, true);
    ghost var g := m.g;
    assert NodeLinked(m.word, node, h);
    NodesInjective(g);
    if left != 0 && right != 0 {
      if ok { ChildrenOrder(m.word, g, node, h); }
      NodeWords(m.word, g, node, Kid(h, false));
      NodeWords(m.word, g, node, Kid(h, true));
      ok := ok && ChunkSize(m.word, left) < ChunkSize(m.word, right);
    }
  }

  method CheckChild(m: MState, u: int, right: bool, ghost node: map<Home, int>, ghost h: Home) returns (ok: bool)
    requires m.Valid() && node == Nodes(m.g.rings) && h in node && h.Tree? && node[h] == u
    ensures ok <==> SoundUnder(m.g, Kid(h, right))
    decreases |node| - Depth(h.path), 0, 0
  {
    hide MState.HeapValid, MState.BinsValid, MState.BooksValid, Structured, Threaded, Sized, SoundUnder, HookOk;
    HeapBins(m);
    HookChecked(m, node, h);
    assert NodeLinked(m.word, node, h);
    NodesInjective(m.g);
    var c := Child(m.word, u, right);
    ok := true;
    if c != 0 {
      ok := Parent(m.word, c) == u && c != u;
      DepthBound(m.word, node, Kid(h, right));
      var sub := CheckTree(m, c, node, Kid(h, right));
      ok := ok && sub;
    } else {
      NothingUnder(m.word, m.g, node, h, right);
    }
  }

  /** do_check_treebin */
  method CheckTreeBin(m: MState, i: nat) returns (ok: bool)
    requires m.Valid() && i < NTREEBINS
    ensures ok <==> forall q :: InBin(m.g, q, i) ==> IndexSound(m.g.size[q])
  {
    ghost var g, node, h := m.g, Nodes(m.g.rings), Tree(i, Root);
    BinUnder(m.word, g, node, i);
    var t := m.treebins[i];
    var empty := !m.treemap[i];
    if h in g.rings { assert RingHoused(g, h); }
    ok := t != 0 || empty;
    if !empty {
      NodesInjective(g);
      var all := CheckTree(m, t, node, h);
      ok := ok && all;
    }
  }

  /** The chunks of a bin are those under its root. */
  lemma BinUnder(w: Memory, g: Index, node: map<Home, int>, i: nat)
    requires Structured(g) && Linked(w, node) && node == Nodes(g.rings)
    ensures forall q :: InBin(g, q, i) <==> Under(g, q, Tree(i, Root))
    ensures Tree(i, Root) !in g.rings ==> forall q :: !InBin(g, q, i)
  {
    forall q | InBin(g, q, i) ensures Below(g.home[q].path, Root) && Tree(i, Root) in g.rings {
      RootBelow(g.home[q].path);
      NodeOfHome(g, node, q);
      RootAbove(w, node, g.home[q]);
    }
  }

  // ------------------------------------------------------------ the whole state

  /** The bytes of the first n segments that chunks and top's foot take up. */
  ghost function Covered(segs: seq<Segment>, n: nat): int requires n <= |segs|
  {
    if n == 0 then 0
    else Covered(segs, n - 1) + LimitOf(segs, n - 1) - segs[n - 1].base + (if n == 1 then TOP_FOOT_SIZE else 0)
  }

  /** What traverse_and_check asserts of one chunk in its place. */
  method CheckPlaced(m: MState, q: int, lastq: int) returns (ok: bool)
    requires m.Valid() && q in m.L && q != m.top
    requires lastq == 0 || (lastq in m.L && End(m.L, lastq) == q)
    ensures ok
  {
    HeapAbove(m, q);
    HeapHead(m, q);
    var found := BinFind(m, q);
    PlacedFacts(m, q, lastq);
    hide MState.HeapValid, BooksOk, ParamsOk, Pinuse, IsInuse, IsMmapped, AnyChunkOk, ChunkSize, FreeChunkOk,
      InuseChunkOk;
    if IsInuse(m.word, q) {
      InuseChecked(m, q);
      ok := !found && InuseChunkOk(m.word, m.least, m.mp.page, q);
    } else {
      FreeChecked(m, q);
      ok := (q == m.dv || found) && (lastq == 0 || IsInuse(m.word, lastq))
        && FreeChunkOk(m.word, m.least, m.dv, m.top, q);
    }
  }

  lemma PlacedFacts(m: MState, q: int, lastq: int)
    requires m.HeapValid() && q in m.L && q != m.top
    requires lastq == 0 || (lastq in m.L && End(m.L, lastq) == q)
    ensures q in m.g.size <==> !m.L[q].inuse && q != m.dv
    ensures IsInuse(m.word, q) == m.L[q].inuse
    ensures lastq != 0 && !m.L[q].inuse ==> IsInuse(m.word, lastq)
  {
    hide Structured, Threaded, Mapped, Fenced;
    assert Isolated(m.L, q);
    HeapHead(m, q);
    if lastq != 0 {
      assert Isolated(m.L, lastq);
      HeapHead(m, lastq);
    }
  }

  /** The inner loop of traverse_and_check: the chunks of one segment. */
  method CheckSegment(m: MState, k: nat) returns (ok: bool, sum: nat)
    requires m.Valid() && k < |m.segs|
    ensures ok && sum == LimitOf(m.segs, k) - m.segs[k].base - (if k == 0 then m.topsize else 0)
  {
    var s := m.segs[k];
    var q, lastq := s.base, 0;
    SegmentStart(m, k);
    ok, sum := Pinuse(m.word, q), 0;
    while s.base <= q < s.base + s.size && q != m.top && Rd(m.word, HeadAt(q)) != FENCEPOST_HEAD
      invariant ok && sum == q - s.base
      invariant OnWalk(m.L, m.segs, k, q)
      invariant lastq == 0 || (lastq in m.L && End(m.L, lastq) == q)
      decreases s.base + s.size - q
    {
      WalkOn(m, k, q);
      sum := sum + ChunkSize(m.word, q);
      var good := CheckPlaced(m, q, lastq);
      ok := ok && good;
      lastq := q;
      q := NextChunk(m.word, q);
    }
    WalkEnds(m, k, q);
  }

  /** q is a chunk of segment k or, except in the first, where its chunks end. */
  ghost predicate OnWalk(L: Layout, segs: seq<Segment>, k: nat, q: int) requires k < |segs| {
    segs[k].base <= q && (if q in L then End(L, q) <= LimitOf(segs, k) else k > 0 && q == LimitOf(segs, k))
  }

  lemma SegmentStart(m: MState, k: nat)
    requires m.HeapValid() && k < |m.segs|
    ensures OnWalk(m.L, m.segs, k, m.segs[k].base) && Pinuse(m.word, m.segs[k].base)
  {
    var b := m.segs[k].base;
    HeapHead(m, b);
    ChunkInSegment(m, k, b);
  }

  /** A chunk that starts in a segment ends in it. */
  lemma ChunkInSegment(m: MState, k: nat, q: int)
    requires m.HeapValid() && k < |m.segs| && q in m.L && m.segs[k].base <= q < m.segs[k].base + m.segs[k].size
    ensures End(m.L, q) <= LimitOf(m.segs, k)
  {
    hide Structured, Threaded, Mapped, Indexed, Recorded, MinSized, Tagged, Fenced, Coalesced;
    assert Contained(m.segs, q, End(m.L, q));
    var j: nat :| Within(m.segs, j, q, End(m.L, q));
    Bounds(m.segs, j);
    assert SegApart(m.segs, j, k);
  }

  lemma WalkOn(m: MState, k: nat, q: int)
    requires m.HeapValid() && k < |m.segs| && OnWalk(m.L, m.segs, k, q)
    requires q != m.top && Rd(m.word, HeadAt(q)) != FENCEPOST_HEAD
    ensures q in m.L && NextChunk(m.word, q) == End(m.L, q) && OnWalk(m.L, m.segs, k, End(m.L, q))
    ensures ChunkSize(m.word, q) == m.L[q].size > 0
  {
    LimitPost(m, k);
    HeapHead(m, q);
    var e := End(m.L, q);
    hide Structured, Threaded, Mapped, Indexed, Recorded, MinSized, Tagged, Fenced, Coalesced;
    assert Followed(m.L, m.segs, q) && ChunksApart(m.L, q, m.top);
    Bounds(m.segs, k);
    if e in m.L { ChunkInSegment(m, k, e); } else { OneLimit(m.segs, k, e); }
  }

  lemma OneLimit(segs: seq<Segment>, k: nat, e: int)
    requires SegmentsApart(segs) && k < |segs| && IsLimit(segs, e) && segs[k].base < e <= LimitOf(segs, k)
    ensures e == LimitOf(segs, k)
  {
    var j :| 0 <= j < |segs| && e == LimitOf(segs, j);
    Bounds(segs, j);
    Bounds(segs, k);
    assert SegApart(segs, j, k);
  }

  lemma LimitPost(m: MState, k: nat)
    requires m.HeapValid() && k < |m.segs|
    ensures k > 0 ==> Rd(m.word, HeadAt(LimitOf(m.segs, k))) == FENCEPOST_HEAD
  {
    hide Structured, Threaded, Mapped, Indexed, Recorded, MinSized, Tagged, Coalesced;
    assert Ended(m.word, m.segs, k) && 0 < m.segs[k].base < LimitOf(m.segs, k);
    assert PastLimit(m.segs, k, HeadAt(LimitOf(m.segs, k)));
  }

  lemma WalkEnds(m: MState, k: nat, q: int)
    requires m.HeapValid() && k < |m.segs| && OnWalk(m.L, m.segs, k, q)
    requires !(m.segs[k].base <= q < m.segs[k].base + m.segs[k].size) || q == m.top
      || Rd(m.word, HeadAt(q)) == FENCEPOST_HEAD
    ensures q == if k == 0 then m.top else LimitOf(m.segs, k)
  {
    TopPlaced(m);
    Bounds(m.segs, k);
    Bounds(m.segs, 0);
    assert SegApart(m.segs, 0, k);
    if q in m.L { HeapHead(m, q); }
  }

  /** traverse_and_check. The chunks it meets fill the segments. */
  method TraverseAndCheck(m: MState) returns (ok: bool, sum: nat)
    requires m.Valid()
    ensures ok && sum == Covered(m.segs, |m.segs|)
  {
    hide MState.HeapValid, MState.BooksValid;
    ok, sum := true, 0;
    TopSet(m);
    hide MState.Valid, Covered, LimitOf;
    CoveredNone(m.segs);
    if m.top != 0 {
      sum := m.topsize + TOP_FOOT_SIZE;
      var k := 0;
      while k < |m.segs|
        invariant 0 <= k <= |m.segs| && ok
        invariant sum == Covered(m.segs, k) + (if k == 0 then m.topsize + TOP_FOOT_SIZE else 0)
      {
        var good, n := CheckSegment(m, k);
        CoveredNext(m.segs, k);
        ok, sum := ok && good, sum + n;
        k := k + 1;
      }
    }
  }

  lemma CoveredNone(segs: seq<Segment>) ensures Covered(segs, 0) == 0 {}

  lemma CoveredNext(segs: seq<Segment>, k: nat)
    requires k < |segs|
    ensures Covered(segs, k + 1) ==
      Covered(segs, k) + LimitOf(segs, k) - segs[k].base + (if k == 0 then TOP_FOOT_SIZE else 0)
  {}

  lemma TopSet(m: MState)
    requires m.HeapValid()
    ensures m.top == 0 <==> m.segs == []
  {}

  /** The bytes counted are bytes the allocator holds. */
  lemma {:induction false} CoveredHeld(segs: seq<Segment>, n: nat, held: set<int>)
    requires SegmentsApart(segs) && n <= |segs| && forall a :: InFirst(segs, n, a) ==> a in held
    ensures Covered(segs, n) <= |held|
  {
    if n > 0 {
      var s := segs[n - 1];
      Bounds(segs, n - 1);
      var part := Bytes(s.base, s.size);
      HeldParts(segs, n, held, part);
      CoveredHeld(segs, n - 1, held - part);
      FewerBytes(held, s.base, s.size);
    }
  }

  lemma HeldParts(segs: seq<Segment>, n: nat, held: set<int>, part: set<int>)
    requires SegmentsApart(segs) && 0 < n <= |segs| && part == Bytes(segs[n - 1].base, segs[n - 1].size)
    requires forall a :: InFirst(segs, n, a) ==> a in held
    ensures part <= held && forall a :: InFirst(segs, n - 1, a) ==> a in held - part
  {
    forall a | a in part ensures a in held { assert InFirst(segs, n, a); }
    forall a | InFirst(segs, n - 1, a) ensures a in held - part {
      var j :| 0 <= j < n - 1 && segs[j].base <= a < segs[j].base + segs[j].size;
      assert SegApart(segs, j, n - 1) && InFirst(segs, n, a);
    }
  }

  ghost predicate InFirst(segs: seq<Segment>, n: nat, a: int) requires n <= |segs|
  { exists j :: 0 <= j < n && segs[j].base <= a < segs[j].base + segs[j].size }

  lemma CoveredFits(m: MState)
    requires m.Valid()
    ensures Covered(m.segs, |m.segs|) <= m.footprint
  {
    hide Structured, Threaded, Mapped, Indexed, Recorded, MinSized, Tagged, Coalesced, Fenced, ParamsOk;
    forall a | InFirst(m.segs, |m.segs|, a) ensures a in m.os.mapped { assert InSegs(m.segs, a); }
    CoveredHeld(m.segs, |m.segs|, m.os.mapped);
  }

  /** do_check_malloc_state. On a heap that the operations can reach it fails in one way only: if a large
      free chunk has a size from 2^40 on that the bin index misplaces. */
  method CheckMallocState(m: MState) returns (ok: bool)
    requires m.Valid()
    ensures m.g.home.Keys == m.g.size.Keys && (ok <==> AllSound(m.g))
  {
    KeysAgree(m.g);
    TreeHomes(m.g);
    CoveredFits(m);
    hide MState.HeapValid, BooksOk, ParamsOk, IndexSound;
    var i := 0;
    ok := true;
    while i < 32
      invariant 0 <= i <= 32 && ok
    {
      var bin := CheckSmallBin(m, i);
      ok := ok && bin;
      i := i + 1;
    }
    i := 0;
    while i < NTREEBINS
      invariant 0 <= i <= NTREEBINS
      invariant ok <==> forall q :: InTree(m.g, q) && m.g.home[q].b < i ==> IndexSound(m.g.size[q])
    {
      var bin := CheckTreeBin(m, i);
      ok := ok && bin;
      i := i + 1;
    }
    var rest := CheckSpares(m);
    var good, total := TraverseAndCheck(m);
    ok := ok && rest && good && total <= m.footprint && m.footprint <= m.maxFootprint;
  }

  lemma TreeHomes(g: Index)
    requires Structured(g)
    ensures forall q :: InTree(g, q) ==> g.home[q].b < NTREEBINS
  {
    forall q | InTree(g, q) ensures g.home[q].b < NTREEBINS { assert RingHoused(g, g.home[q]); }
  }

  /** The checks of dv and top. */
  method CheckSpares(m: MState) returns (ok: bool)
    requires m.Valid()
    ensures ok
  {
    ok := true;
    SparesPlaced(m);
    if m.dvsize != 0 {
      HeapAbove(m, m.dv);
      HeapHead(m, m.dv);
      var found := BinFind(m, m.dv);
      ok := AnyChunkOk(m.word, m.least, m.dv) && m.dvsize == ChunkSize(m.word, m.dv) && m.dvsize >= MIN_CHUNK_SIZE
        && !found;
    }
    if m.top != 0 {
      TopChecked(m);
      var found := BinFind(m, m.top);
      ok := ok && TopChunkOk(m.word, m.least, m.segs, m.top, m.topsize) && m.topsize > 0 && !found;
    }
  }

  lemma SparesPlaced(m: MState)
    requires m.HeapValid()
    ensures m.dv !in m.g.size && m.top !in m.g.size
    ensures m.dvsize != 0 ==> m.dv in m.L && m.L[m.dv].size == m.dvsize >= MIN_CHUNK_SIZE
    ensures m.top != 0 ==> m.top in m.L && m.topsize > 0
  {
    hide Structured, Threaded, Mapped, Tagged, Fenced;
  }
}
