/** Giving chunks back: dispose_chunk and free. */
module Freeing {
  import opened Words
  import opened Bins
  import opened Layout
  import opened LayoutFacts
  import opened Heap
  import opened Merging
  import opened State
  import opened SmallBins
  import opened TreeBins

  /** unlink_chunk */
  method UnlinkChunk(m: MState, p: int, size: nat)
    requires m.BinsValid() && p in m.g.size && m.g.size[p] == size
    modifies m`word, m`smallmap, m`treemap, m`treebins, m`g
    ensures m.BinsValid()
    ensures m.g.size == old(m.g.size) - {p}
    ensures OnlyBodies(old(m.word), m.word, old(m.g.size))
  {
    assert Fits(m.g.home[p], m.g.size[p]);
    if size < 256 { UnlinkSmallChunk(m, p, size); } else { UnlinkLargeChunk(m, p); }
  }

  /** insert_chunk */
  method InsertChunk(m: MState, p: int, size: nat)
    requires m.BinsValid() && Sized(m.word, m.g.size)
    requires p !in m.g.size && Spaced(m.g.size[p := size]) && size % 16 == 0
    modifies m`word, m`smallmap, m`treemap, m`treebins, m`g
    ensures m.BinsValid()
    ensures m.g.size == old(m.g.size)[p := size]
    ensures OnlyBodies(old(m.word), m.word, m.g.size)
  {
    assert p in m.g.size[p := size];
    if size < 256 { InsertSmallChunk(m, p, size); } else { InsertLargeChunk(m, p, size); }
  }

  /** What became of a freed chunk. */
  datatype Fate = IntoTop | IntoDv | Binned

  /** The heap is in order except that the chunks in out are in no bin. */
  ghost predicate Loose(m: MState, out: set<int>)
    reads m
  {
    && m.BinsValid() && LayoutOk(m.L, m.segs, m.Spares())
    && Tagged(m.word, m.L, m.top) && Indexed(m.L, m.g.size, m.Spares(), out) && Fenced(m.word, m.segs)
  }

  /** Bin the loose chunk q. */
  method PutAway(m: MState, q: int, size: nat)
    requires Loose(m, {q}) && q in m.L && !m.L[q].inuse && q != m.dv && q != m.top && size == m.L[q].size
    modifies m`word, m`smallmap, m`treemap, m`treebins, m`g
    ensures m.HeapValid() && PayloadSafe(old(m.word), m.word, m.L, m.segs)
  {
    hide Structured, Threaded, Mapped, Tiled, Coalesced, MinSized, Recorded, Tagged, PayloadSafe, OnlyBodies, Fenced;
    hide Indexed, FreeIn, DvOk, TopOk, Spaced, Sized;
    ghost var w := m.word;
    LooseReady(m.word, m.L, m.segs, m.g.size, m.Spares(), q);
    InsertChunk(m, q, size);
    LinkingKeepsTags(w, m.word, m.L, m.top, m.g.size);
    LinkingSafe(w, m.word, m.L, m.segs, m.g.size);
    SafeFenced(w, m.word, m.L, m.L, m.segs);
  }

  lemma LooseReady(w: Memory, L: Layout, segs: seq<Segment>, size: map<int, nat>, s: Spare, q: int)
    requires Tiled(L, segs) && MinSized(L, s.top) && Tagged(w, L, s.top) && Indexed(L, size, s, {q})
    requires q in L && !L[q].inuse && q != s.dv && q != s.top
    ensures q !in size && Spaced(size[q := L[q].size]) && L[q].size % 16 == 0 && Sized(w, size)
    ensures FreeIn(L, size[q := L[q].size]) && Disjoint(L) && Shaped(L)
    ensures Indexed(L, size[q := L[q].size], s, {})
  {
    FreeSpaced(L, segs, s.top, size[q := L[q].size]);
    IndexSized(w, L, size);
  }

  /** Take chunk q out of its bin. */
  method TakeOut(m: MState, q: int, size: nat, ghost out: set<int>)
    requires Loose(m, out) && q in m.g.size && size == m.L[q].size
    modifies m`word, m`smallmap, m`treemap, m`treebins, m`g
    ensures Loose(m, out + {q}) && PayloadSafe(old(m.word), m.word, m.L, m.segs)
  {
    hide Structured, Threaded, Mapped, Coalesced, MinSized, Recorded, Tagged, PayloadSafe, OnlyBodies, AllFollowed,
      AllContained, Fenced;
    ghost var w, size0 := m.word, m.g.size;
    UnlinkChunk(m, q, size);
    LinkingKeepsTags(w, m.word, m.L, m.top, size0);
    LinkingSafe(w, m.word, m.L, m.segs, size0);
    SafeFenced(w, m.word, m.L, m.L, m.segs);
  }

  lemma Kept(w: Memory, w1: Memory, w2: Memory, w3: Memory, L: Layout, L': Layout, segs: seq<Segment>)
    requires PayloadSafe(w, w1, L, segs) && PayloadSafe(w1, w2, L', segs) && PayloadSafe(w2, w3, L', segs)
    ensures PayloadsKept(w, w3, L, L', segs)
  {}

  lemma SafeStill(w: Memory, L: Layout, segs: seq<Segment>) ensures PayloadSafe(w, w, L, segs) {}

  /** p is about to be freed; q starts the merged chunk and is in no bin, nor is the next chunk. */
  ghost predicate Going(m: MState, q: int, size: nat, next: int, p: int)
    reads m
  {
    && Loose(m, {q, next}) && p in m.L && !IsRecord(m.segs, p) && next == End(m.L, p) && next in m.L
    && Run(m.L, q, p, RunEnd(m.L, p)) && q + size == next
  }

  /** The chunk after the freed one is top, which grows downward. */
  method MergeIntoTop(m: MState, q: int, size: nat, next: int, ghost p: int)
    requires Going(m, q, size, next, p) && next == m.top
    modifies m`word, m`dv, m`dvsize, m`top, m`topsize, m`L
    ensures m.HeapValid()
    ensures Reassigned(old(m.L), q, p, RunEnd(old(m.L), p), old(m.Spares()), m.Spares())
    ensures m.L == Fuse(old(m.L), q, RunEnd(old(m.L), p), false)
    ensures PayloadSafe(old(m.word), m.word, m.L, m.segs)
  {
    hide Structured, Threaded, Mapped, Tiled, Coalesced, MinSized, Recorded, Tagged, PayloadSafe, Indexed, Retagged,
      DvOk, TopOk, Fuse, Fenced;
    ghost var L, w, e, s := m.L, m.word, RunEnd(m.L, p), m.Spares();
    RunFacts(L, m.segs, w, s, q, p, e);
    RetagMerged(w, L, m.segs, s.top, q, p, e);
    m.topsize := m.topsize + size;
    m.top := q;
    m.word := m.word[HeadAt(q) := HeadWord(Chunk(m.topsize, false, true))];
    if q == m.dv {
      m.dv := 0;
      m.dvsize := 0;
    }
    m.L := Fuse(L, q, e, false);
    FreedState(w, m.word, L, m.segs, q, p, e, s, m.Spares(), m.g);
    SafeFenced(w, m.word, L, m.L, m.segs);
    Settled(m.L, m.g.size, m.Spares(), q);
  }

  lemma Settled(L: Layout, size: map<int, nat>, s: Spare, q: int)
    requires Indexed(L, size, s, {q}) && (q == s.dv || q == s.top)
    ensures Indexed(L, size, s, {})
  {}

  /** The merged chunk becomes dv, which was one of its parts. */
  method MergeIntoDv(m: MState, q: int, size: nat, next: int, total: nat, ghost p: int)
    requires Going(m, q, size, next, p) && next != m.top && (m.dv == q || m.dv == next)
    requires q + total == RunEnd(m.L, p)
    modifies m`word, m`dv, m`dvsize, m`L
    ensures m.HeapValid()
    ensures Reassigned(old(m.L), q, p, RunEnd(old(m.L), p), old(m.Spares()), m.Spares())
    ensures m.L == Fuse(old(m.L), q, RunEnd(old(m.L), p), false)
    ensures PayloadSafe(old(m.word), m.word, m.L, m.segs)
  {
    hide Structured, Threaded, Mapped, Tiled, Coalesced, MinSized, Recorded, Tagged, PayloadSafe, Indexed, Retagged,
      DvOk, TopOk, Fuse, Fenced;
    ghost var L, w, e, s := m.L, m.word, RunEnd(m.L, p), m.Spares();
    RunFacts(L, m.segs, w, s, q, p, e);
    m.dv := q;
    m.dvsize := total;
    TagMerged(m, q, total, next, p);
    m.L := Fuse(L, q, e, false);
    FreedState(w, m.word, L, m.segs, q, p, e, s, m.Spares(), m.g);
    SafeFenced(w, m.word, L, m.L, m.segs);
    Settled(m.L, m.g.size, m.Spares(), q);
  }

  /** Tags for the merged chunk: set_free_with_pinuse or set_size_and_pinuse_of_free_chunk. */
  method TagMerged(m: MState, q: int, total: nat, next: int, ghost p: int)
    requires Tiled(m.L, m.segs) && Coalesced(m.L) && Tagged(m.word, m.L, m.top) && p in m.L && next == End(m.L, p)
    requires next in m.L
    requires Run(m.L, q, p, RunEnd(m.L, p)) && q + total == RunEnd(m.L, p) && total > 0
    modifies m`word
    ensures Retagged(old(m.word), m.word, m.L, q, RunEnd(m.L, p), m.top)
  {
    hide Tiled, Coalesced, Retagged, Feet, Fuse;
    ghost var e := RunEnd(m.L, p);
    ShapedTiled(m.L, m.segs);
    HeadSays(m.word, m.L, m.top, next);
    if Cinuse(m.word, next) {
      RetagAlone(m.word, m.L, m.segs, m.top, q, p, e);
      m.word := FreeWithPinuse(m.word, q, total, next);
    } else {
      assert e != next;
      RetagMerged(m.word, m.L, m.segs, m.top, q, p, e);
      m.word := FreeTags(m.word, q, total);
    }
  }

  lemma ShapedTiled(L: Layout, segs: seq<Segment>)
    requires Tiled(L, segs)
    ensures Shaped(L) && Disjoint(L)
  {}

  /** The merged chunk goes into a bin. */
  method MergeIntoBin(m: MState, q: int, size: nat, next: int, total: nat, ghost p: int)
    requires Going(m, q, size, next, p) && next != m.top && m.dv != q && m.dv != next
    requires q + total == RunEnd(m.L, p)
    modifies m`word, m`smallmap, m`treemap, m`treebins, m`g, m`L
    ensures m.HeapValid()
    ensures Reassigned(old(m.L), q, p, RunEnd(old(m.L), p), old(m.Spares()), m.Spares())
    ensures m.L == Fuse(old(m.L), q, RunEnd(old(m.L), p), false) && q in m.L && m.L[q].size == total
    ensures PayloadSafe(old(m.word), m.word, m.L, m.segs)
  {
    hide Structured, Threaded, Mapped, Tiled, Coalesced, MinSized, Recorded, Tagged, PayloadSafe, Indexed, Retagged,
      DvOk, TopOk, Fuse, Fenced;
    ghost var L, w, e, s := m.L, m.word, RunEnd(m.L, p), m.Spares();
    RunFacts(L, m.segs, w, s, q, p, e);
    TagMerged(m, q, total, next, p);
    m.L := Fuse(L, q, e, false);
    FreedState(w, m.word, L, m.segs, q, p, e, s, m.Spares(), m.g);
    SafeFenced(w, m.word, L, m.L, m.segs);
    FusedAt(L, q, e);
    ghost var w1 := m.word;
    PutAway(m, q, total);
    SafeTrans(w, w1, m.word, m.L, m.segs);
  }

  lemma FusedAt(L: Layout, a: int, b: int)
    requires a in L && a < b
    ensures a in Fuse(L, a, b, false) && !Fuse(L, a, b, false)[a].inuse && Fuse(L, a, b, false)[a].size == b - a
  {}

  lemma SafeTrans(w: Memory, w1: Memory, w2: Memory, L: Layout, segs: seq<Segment>)
    requires PayloadSafe(w, w1, L, segs) && PayloadSafe(w1, w2, L, segs)
    ensures PayloadSafe(w, w2, L, segs)
  {}

  /** Second half of free and dispose_chunk: merge with the next chunk if it is free, and put the result away. */
  method Consolidate(m: MState, q: int, size: nat, next: int, ghost p: int) returns (fate: Fate, total: nat)
    requires Loose(m, {q}) && p in m.L && !IsRecord(m.segs, p) && next == End(m.L, p) && next in m.L
    requires Run(m.L, q, p, RunEnd(m.L, p)) && q + size == next
    modifies m`word, m`smallmap, m`treemap, m`treebins, m`g, m`dv, m`dvsize, m`top, m`topsize, m`L
    ensures m.HeapValid()
    ensures Reassigned(old(m.L), q, p, RunEnd(old(m.L), p), old(m.Spares()), m.Spares())
    ensures m.L == Fuse(old(m.L), q, RunEnd(old(m.L), p), false)
    ensures PayloadsKept(old(m.word), m.word, old(m.L), m.L, m.segs)
    ensures fate == IntoTop <==> old(m.top) == next
    ensures fate == Binned ==> total == RunEnd(old(m.L), p) - q
    ensures fate == Binned <==> old(m.top) != next && old(m.dv) != next && old(m.dv) != q
  {
    hide Structured, Threaded, Mapped, Tiled, Coalesced, MinSized, Recorded, Tagged, PayloadSafe, PayloadsKept, Indexed,
      DvOk, TopOk, Fuse, Fenced;
    ghost var L, w, s := m.L, m.word, m.Spares();
    total := size;
    RunFacts(L, m.segs, w, s, q, p, RunEnd(L, p));
    NextBinned(L, m.g.size, s, q, next);
    SafeStill(w, L, m.segs);
    if !Cinuse(m.word, next) {
      if next == m.top {
        MergeIntoTop(m, q, size, next, p);
        SafeStill(w, m.L, m.segs);
        Kept(w, w, w, m.word, L, m.L, m.segs);
        fate := IntoTop;
        return;
      } else if next == m.dv {
        MergeIntoDv(m, q, size, next, m.dvsize + size, p);
        SafeStill(w, m.L, m.segs);
        Kept(w, w, w, m.word, L, m.L, m.segs);
        fate := IntoDv;
        return;
      }
      var nsize := ChunkSize(m.word, next);
      total := size + nsize;
      TakeOut(m, next, nsize, {q});
      assert {q} + {next} == {q, next};
      ghost var w1 := m.word;
      if q == m.dv {
        MergeIntoDv(m, q, size, next, size + nsize, p);
        fate := IntoDv;
      } else {
        MergeIntoBin(m, q, size, next, size + nsize, p);
        fate := Binned;
      }
      SafeStill(w1, m.L, m.segs);
      Kept(w, w1, w1, m.word, L, m.L, m.segs);
    } else if q == m.dv {
      MergeIntoDv(m, q, size, next, size, p);
      SafeStill(w, m.L, m.segs);
      Kept(w, w, w, m.word, L, m.L, m.segs);
      fate := IntoDv;
    } else {
      MergeIntoBin(m, q, size, next, size, p);
      SafeStill(w, m.L, m.segs);
      Kept(w, w, w, m.word, L, m.L, m.segs);
      fate := Binned;
    }
  }

  lemma NextBinned(L: Layout, size: map<int, nat>, s: Spare, q: int, next: int)
    requires Indexed(L, size, s, {q}) && q < next && next in L
    ensures if L[next].inuse || next == s.dv || next == s.top then Indexed(L, size, s, {q, next}) else next in size
  {}

  /** Everything a freed chunk needs to know about its neighbours. */
  lemma Neighbours(w: Memory, L: Layout, segs: seq<Segment>, s: Spare, size: map<int, nat>, p: int)
    requires LayoutOk(L, segs, s) && Tagged(w, L, s.top) && Indexed(L, size, s, {})
    requires p in L && L[p].inuse && !IsRecord(segs, p)
    ensures Pinuse(w, p) == L[p].pinuse && Cinuse(w, p) && ChunkSize(w, p) == L[p].size && End(L, p) in L
    ensures L[p].pinuse ==> Run(L, p, p, RunEnd(L, p)) && Indexed(L, size, s, {p})
    ensures !L[p].pinuse ==>
      var q := p - Rd(w, FootAt(p));
      && Run(L, q, p, RunEnd(L, p)) && L[q].size == p - q
      && if q == s.dv then Indexed(L, size, s, {q}) else q in size
  {
    hide Coalesced, MinSized, AllFollowed, AllContained, Based, Recorded;
    HeadSays(w, L, s.top, p);
    HasNext(L, segs, s, p);
    if !L[p].pinuse { PrevFree(w, L, segs, s, p); }
  }

  /** p and its free neighbours have become one free chunk, which is top if top was among them, else dv if dv was. */
  ghost predicate FreedAs(L: Layout, L': Layout, s: Spare, s': Spare, p: int)
  {
    exists q, e {:trigger Run(L, q, p, e)} ::
      Run(L, q, p, e) && L' == Fuse(L, q, e, false) && Reassigned(L, q, p, e, s, s')
  }

  /** p and its free neighbours, with neither dv nor top among them, are large enough for a tree bin. */
  ghost predicate LargeBinned(L: Layout, s: Spare, p: int) {
    exists q, e {:trigger Run(L, q, p, e)} ::
      Run(L, q, p, e) && e - q >= 256 && s.top != End(L, p) && s.dv != End(L, p) && s.dv != q
  }

  lemma OneBefore(L: Layout, segs: seq<Segment>, q: int, q': int, p: int)
    requires Tiled(L, segs) && q in L && q' in L && q < p && q' < p && End(L, q) == p == End(L, q')
    ensures q == q'
  {
    assert ChunksApart(L, q, q');
  }

  lemma LargeBinnedIs(L: Layout, segs: seq<Segment>, s: Spare, q: int, p: int, fate: Fate, total: int)
    requires Tiled(L, segs) && p in L && End(L, p) in L && Run(L, q, p, RunEnd(L, p))
    requires fate == Binned ==> total == RunEnd(L, p) - q
    requires fate == Binned <==> s.top != End(L, p) && s.dv != End(L, p) && s.dv != q
    ensures fate == Binned && total >= 256 <==> LargeBinned(L, s, p)
  {
    forall q', e | Run(L, q', p, e) ensures q' == q && e == RunEnd(L, p) {
      if q' != q { OneBefore(L, segs, q, q', p); }
    }
  }

  /** dispose_chunk: give back a chunk of the segments. No chunk in use but p is affected. */
  method DisposeChunk(m: MState, p: int, psize: nat) returns (fate: Fate, total: nat)
    requires m.HeapValid() && p in m.L && m.L[p].inuse && !IsRecord(m.segs, p) && psize == m.L[p].size
    modifies m`word, m`smallmap, m`treemap, m`treebins, m`g, m`dv, m`dvsize, m`top, m`topsize, m`L
    ensures m.HeapValid()
    ensures Used(m.L) == Used(old(m.L)) - {p}
    ensures FreedAs(old(m.L), m.L, old(m.Spares()), m.Spares(), p)
    ensures fate == IntoTop <==> old(m.top) == old(End(m.L, p))
    ensures fate == Binned && total >= 256 <==> old(LargeBinned(m.L, m.Spares(), p))
    ensures PayloadsKept(old(m.word), m.word, old(m.L), m.L, m.segs)
  {
    hide Structured, Threaded, Mapped, Tiled, Coalesced, MinSized, Recorded, Tagged, PayloadSafe, PayloadsKept, Indexed,
      DvOk, TopOk, Fuse, Used, Fenced;
    ghost var L, w, s := m.L, m.word, m.Spares();
    Neighbours(w, L, m.segs, s, m.g.size, p);
    ShapedTiled(L, m.segs);
    var q, size, next := p, psize, p + psize;
    SafeStill(w, L, m.segs);
    if !Pinuse(m.word, p) {
      var prevsize := Rd(m.word, FootAt(p));
      q := p - prevsize;
      size := psize + prevsize;
      if q != m.dv {
        TakeOut(m, q, prevsize, {});
        assert {} + {q} == {q};
      }
    }
    ghost var w1 := m.word;
    fate, total := Consolidate(m, q, size, next, p);
    LargeBinnedIs(L, m.segs, s, q, p, fate, total);
    FreedUsed(L, q, p, RunEnd(L, p));
    KeptTrans(w, w1, m.word, L, m.L, m.segs);
    assert Run(L, q, p, RunEnd(L, p));
  }

  lemma KeptTrans(w: Memory, w1: Memory, w2: Memory, L: Layout, L': Layout, segs: seq<Segment>)
    requires PayloadSafe(w, w1, L, segs) && PayloadsKept(w1, w2, L, L', segs)
    ensures PayloadsKept(w, w2, L, L', segs)
  {}
}
