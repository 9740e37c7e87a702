/** malloc_state, the memory it manages, and the ghost view of both. */
module State {
  import opened Words
  import opened Binmaps
  import opened Bins
  import opened Layout
  import opened Heap
  import opened Kernel
  import opened Accounts
  import opened Bits

  /** malloc_params. Page size and granularity, a multiple of it, are powers of two. */
  datatype Params = Params(page: nat, granularity: nat, mmapThreshold: nat, trimThreshold: nat)

  ghost predicate ParamsOk(mp: Params)
  {
    && mp.page >= 4096 && mp.page % 16 == 0 && mp.granularity % mp.page == 0 && 0 < mp.granularity <= HALF
    && PowerOfTwo(mp.page) && PowerOfTwo(mp.granularity)
  }

  /** The larger of what the footprint has been and what it is. */
  function Peak(max: nat, now: nat): nat { if now > max then now else max }

  /** The lowest address got so far, 0 for none. */
  function LeastSeen(least: int, b: int): int { if least == 0 || b < least then b else least }

  class MState {
    var word: Memory
    var smallmap: Binmap
    var treemap: Binmap
    var treebins: seq<int>
    var dv: int
    var dvsize: nat
    var top: int
    var topsize: nat
    var segs: seq<Segment>
    var least: int
    var trimCheck: nat
    var releaseChecks: nat
    var footprint: nat
    var maxFootprint: nat
    var footprintLimit: nat
    const mp: Params
    const os: System

    ghost var g: Index
    ghost var L: Layout
    ghost var mm: map<int, Region>

    ghost predicate BinsValid()
      reads this`word, this`smallmap, this`treemap, this`treebins, this`g
    {
      Structured(g) && Threaded(word, g) && Mapped(smallmap, treemap, treebins, g)
    }

    ghost function Spares(): Spare
      reads this`dv, this`dvsize, this`top, this`topsize
    {
      Spare(dv, dvsize, top, topsize)
    }

    /** Every free chunk is tagged and is dv, top or in the bins; no two are adjacent; segments end in their marks. */
    ghost predicate HeapValid()
      reads this`word, this`smallmap, this`treemap, this`treebins, this`g, this`L, this`segs
      reads this`dv, this`dvsize, this`top, this`topsize
    {
      && BinsValid() && LayoutOk(L, segs, Spares())
      && Tagged(word, L, top) && Indexed(L, g.size, Spares(), {}) && Fenced(word, segs)
    }

    /** Directly mapped chunks are intact and the books agree with the system. */
    ghost predicate BooksValid()
      reads this, os
    {
      && ParamsOk(mp) && os.page == mp.page
      && BooksOk(word, os.mapped, segs, mm, mp.page, least)
      && footprint == |os.mapped| && footprint <= maxFootprint && footprintLimit < LIMIT
    }

    ghost predicate Valid()
      reads this, os
    {
      HeapValid() && BooksValid()
    }

    constructor (mp: Params, os: System)
      requires ParamsOk(mp) && os.page == mp.page && os.mapped == {}
      ensures Valid() && this.mp == mp && this.os == os && L == map[] && mm == map[] && word == map[]
    {
      hide Structured, Threaded, Mapped, LayoutOk, Tagged, Indexed, BooksOk;
      this.mp, this.os := mp, os;
      word, smallmap, treemap, treebins := map[], EMPTY, EMPTY, seq(32, _ => 0);
      dv, dvsize, top, topsize, segs, least := 0, 0, 0, 0, [], 0;
      trimCheck, releaseChecks, footprint, maxFootprint, footprintLimit := 0, 0, 0, 0, 0;
      g, L, mm := Index(map[], map[], map[]), map[], map[];
      new;
      EmptyBins();
      EmptyHeap();
      EmptyBooks(mp.page);
    }
  }

  /** What Valid is made of. */
  ghost predicate Parts(m: MState)
    reads m, m.os
  {
    && Structured(m.g) && Threaded(m.word, m.g) && Mapped(m.smallmap, m.treemap, m.treebins, m.g)
    && LayoutOk(m.L, m.segs, m.Spares()) && Tagged(m.word, m.L, m.top) && Indexed(m.L, m.g.size, m.Spares(), {})
    && Fenced(m.word, m.segs) && ParamsOk(m.mp) && m.os.page == m.mp.page
    && BooksOk(m.word, m.os.mapped, m.segs, m.mm, m.mp.page, m.least)
    && m.footprint == |m.os.mapped| && m.footprint <= m.maxFootprint && m.footprintLimit < LIMIT
  }

  lemma ValidParts(m: MState) requires m.Valid() ensures Parts(m) {}
  lemma ValidFrom(m: MState) requires Parts(m) ensures m.Valid() {}

  lemma EmptyBins()
    ensures var g := Index(map[], map[], map[]);
      Structured(g) && Threaded(map[], g) && Mapped(EMPTY, EMPTY, seq(32, _ => 0), g)
  {}

  lemma EmptyHeap()
    ensures var L: Layout := map[];
      LayoutOk(L, [], Spare(0, 0, 0, 0)) && Tagged(map[], L, 0) && Indexed(L, map[], Spare(0, 0, 0, 0), {})
  {}

  lemma EmptyBooks(page: nat)
    requires page > 0
    ensures BooksOk(map[], {}, [], map[], page, 0)
  {}
}
