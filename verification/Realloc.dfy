/** realloc: in place where possible, else by moving. */
module Realloc {
  import opened Words
  import opened Bits
  import opened Sizes
  import opened Bins
  import opened Layout
  import opened LayoutFacts
  import opened Heap
  import opened Merging
  import opened Splitting
  import opened Resizing
  import opened Accounts
  import opened State
  import opened Freeing
  import opened Malloc
  import opened Direct
  import opened Growing
  import opened Trimming
  import opened Checks
  import opened Dlmalloc
  import opened Clients

  /** set_inuse on both parts writes just the two heads. */
  lemma SplitInuse(w: Memory, L: Layout, top: int, p: int, n: nat)
    requires Shaped(L) && Tagged(w, L, top) && p in L && L[p].inuse && End(L, p) in L && L[End(L, p)].pinuse
    requires 0 < n < L[p].size && n % 16 == 0
    ensures SetInuse(SetInuse(w, p, n), p + n, L[p].size - n) == SplitTags(w, p, n, L[p].size, L[p].pinuse)
  {
    var e := End(L, p);
    HeadFields(w, p, L[p]);
    HeadFields(w, e, L[e]);
    var w1 := SetInuse(w, p, n);
    assert Rd(w1, HeadAt(p)) == HeadWord(Chunk(n, true, L[p].pinuse)) && Rd(w1, HeadAt(p + n)) % 2 == 1;
    assert Rd(w1, HeadAt(e)) == Rd(w, HeadAt(e)) && HeadAt(e) in w;
  }

  /** Cut the chunk p, in use, after nb bytes. */
  method SplitOff(m: MState, p: int, nb: nat, rsize: nat)
    requires m.HeapValid() && Splittable(m.L, m.segs, p, nb) && nb + rsize == m.L[p].size
    modifies m`word, m`L
    ensures m.HeapValid() && m.L == Split(old(m.L), p, nb) && Used(m.L) == Used(old(m.L))[p := nb][p + nb := rsize]
    ensures p + nb !in old(m.L) && !IsRecord(m.segs, p + nb) && PayloadSafe(old(m.word), m.word, m.L, m.segs)
  {
    hide Structured, Threaded, Mapped, LayoutOk, Tagged, Indexed, PayloadSafe, Used, SplitTags, SetInuse, Split,
      Fenced;
    ghost var w, L := m.word, m.L;
    SplitReady(w, L, m.segs, m.Spares(), p, nb);
    SplitState(w, L, m.segs, m.Spares(), p, nb, m.g);
    m.word := SetInuse(SetInuse(m.word, p, nb), p + nb, rsize);
    m.L := Split(L, p, nb);
    SafeEnds(w, m.word, L, m.L, m.segs, m.Spares());
  }

  lemma SplitReady(w: Memory, L: Layout, segs: seq<Segment>, s: Spare, p: int, n: nat)
    requires LayoutOk(L, segs, s) && Tagged(w, L, s.top) && Splittable(L, segs, p, n)
    ensures SetInuse(SetInuse(w, p, n), p + n, L[p].size - n) == SplitTags(w, p, n, L[p].size, L[p].pinuse)
  {
    hide Coalesced, AllContained, Based, SegmentsApart, Recorded, MinSized, AllFollowed;
    HasNext(L, segs, s, p);
    SplitInuse(w, L, s.top, p, n);
  }

  /** Give back the end of a chunk in use: split off what is beyond nb bytes and dispose of it. */
  method GiveBackTail(m: MState, p: int, nb: nat, rsize: nat)
    requires m.HeapValid() && Splittable(m.L, m.segs, p, nb) && nb + rsize == m.L[p].size
    modifies m`word, m`smallmap, m`treemap, m`treebins, m`g, m`dv, m`dvsize, m`top, m`topsize, m`L
    ensures m.HeapValid() && Used(m.L) == Used(old(m.L))[p := nb]
    ensures PayloadsKept(old(m.word), m.word, old(m.L), m.L, m.segs)
  {
    hide MState.HeapValid, PayloadSafe, PayloadsKept, Used, Split;
    ghost var w, L := m.word, m.L;
    SplitOff(m, p, nb, rsize);
    ghost var w1, L1 := m.word, m.L;
    SplitAt(L, p, nb);
    var fate, total := DisposeChunk(m, p + nb, rsize);
    TailGone(w, w1, m.word, L, L1, m.L, m.segs, p, nb, rsize);
  }

  lemma SplitAt(L: Layout, p: int, n: nat)
    requires p in L && 0 < n < L[p].size && L[p].inuse
    ensures p + n in Split(L, p, n) && Split(L, p, n)[p + n] == Chunk(L[p].size - n, true, true)
  {}

  lemma TailGone(w: Memory, w1: Memory, w2: Memory, L: Layout, L1: Layout, L2: Layout, segs: seq<Segment>, p: int,
                 nb: nat, rsize: nat)
    requires p in L && L[p].inuse && L[p].size == nb + rsize && p + nb !in L && rsize > 0
    requires Used(L1) == Used(L)[p := nb][p + nb := rsize] && PayloadSafe(w, w1, L1, segs)
    requires Used(L2) == Used(L1) - {p + nb} && PayloadsKept(w1, w2, L1, L2, segs)
    ensures Used(L2) == Used(L)[p := nb] && PayloadsKept(w, w2, L, L2, segs)
  {
    assert p + nb !in Used(L);
    assert Used(L)[p := nb][p + nb := rsize] - {p + nb} == Used(L)[p := nb];
    forall u, a | InPayload(L, u, a) && InPayload(L2, u, a) ensures Rd(w2, a) == Rd(w, a) {
      assert u in Used(L2) && u in Used(L1) && Used(L1)[u] == Used(L2)[u];
      assert InPayload(L1, u, a);
    }
  }

  // ------------------------------------------------------------- growing in place

  /** Extend into top. */
  method ExtendIntoTop(m: MState, p: int, oldsize: nat, nb: nat)
    requires m.HeapValid() && Movable(m.L, m.segs, m.Spares(), p, nb) && oldsize == m.L[p].size && End(m.L, p) == m.top
    modifies m`word, m`top, m`topsize, m`L
    ensures m.HeapValid() && Used(m.L) == Used(old(m.L))[p := nb] && PayloadSafe(old(m.word), m.word, old(m.L), m.segs)
  {
    hide Structured, Threaded, Mapped, LayoutOk, Tagged, Indexed, PayloadSafe, Used, SetInuse, Shoved, MoveWrites,
      Movable, HeadWord, Fenced;
    ghost var w, L, s := m.word, m.L, m.Spares();
    MovableFacts(L, m.segs, s, p, nb);
    var newtopsize := oldsize + m.topsize - nb;
    TopMoveWrites(w, L, m.segs, s, p, nb);
    m.word := SetInuse(m.word, p, nb)[HeadAt(p + nb) := HeadWord(Chunk(newtopsize, false, true))];
    m.top, m.topsize := p + nb, newtopsize;
    m.L := Shoved(L, p, nb);
    MovedState(w, m.word, L, m.segs, s, p, nb, m.g);
    SafeEnds(w, m.word, L, L, m.segs, s);
  }

  lemma MovableFacts(L: Layout, segs: seq<Segment>, s: Spare, p: int, nb: nat)
    requires LayoutOk(L, segs, s) && Movable(L, segs, s, p, nb)
    ensures p in L && End(L, p) in L && nb <= L[p].size + L[End(L, p)].size
    ensures End(L, p) == s.top ==> L[End(L, p)].size == s.topsize
    ensures End(L, p) != s.top ==>
      L[End(L, p)].size == s.dvsize && End(L, p) == s.dv && End(L, End(L, p)) in L && !L[End(L, End(L, p))].pinuse
  {
    hide Coalesced, AllContained, Based, SegmentsApart, MinSized, AllFollowed, Disjoint;
    if End(L, p) != s.top { HasNext(L, segs, s, End(L, p)); }
  }

  lemma TopMoveWrites(w: Memory, L: Layout, segs: seq<Segment>, s: Spare, p: int, nb: nat)
    requires LayoutOk(L, segs, s) && Tagged(w, L, s.top) && Movable(L, segs, s, p, nb) && End(L, p) == s.top
    ensures var r := L[p].size + L[End(L, p)].size - nb;
      MoveWrites(w, SetInuse(w, p, nb)[HeadAt(p + nb) := HeadWord(Chunk(r, false, true))], L, p, nb, s.top)
  {
    hide Coalesced, AllContained, Based, SegmentsApart, MinSized, AllFollowed, Disjoint, Recorded, Feet;
    HeadFields(w, p, L[p]);
  }

  /** Extend into dv and leave a smaller one. */
  method ExtendIntoDv(m: MState, p: int, oldsize: nat, nb: nat, dsize: nat)
    requires m.HeapValid() && Movable(m.L, m.segs, m.Spares(), p, nb) && oldsize == m.L[p].size && End(m.L, p) == m.dv
    requires nb + dsize == oldsize + m.dvsize
    modifies m`word, m`dv, m`dvsize, m`L
    ensures m.HeapValid() && Used(m.L) == Used(old(m.L))[p := nb] && PayloadSafe(old(m.word), m.word, old(m.L), m.segs)
    ensures m.dv == p + nb && m.dvsize == dsize
  {
    hide Structured, Threaded, Mapped, LayoutOk, Tagged, Indexed, PayloadSafe, Used, SetInuse, Shoved, MoveWrites,
      Movable, FreeTags, ClearPinuse, Fenced;
    ghost var w, L, s := m.word, m.L, m.Spares();
    DvNotTop(L, m.segs, s);
    MovableFacts(L, m.segs, s, p, nb);
    DvMoveWrites(w, L, m.segs, s, p, nb);
    var r := p + nb;
    m.word := ClearPinuse(FreeTags(SetInuse(m.word, p, nb), r, dsize), r + dsize);
    m.dvsize, m.dv := dsize, r;
    m.L := Shoved(L, p, nb);
    MovedState(w, m.word, L, m.segs, s, p, nb, m.g);
    SafeEnds(w, m.word, L, L, m.segs, s);
  }

  lemma DvNotTop(L: Layout, segs: seq<Segment>, s: Spare)
    requires LayoutOk(L, segs, s)
    ensures s.dv in L ==> s.dv != s.top
  {}

  lemma DvMoveWrites(w: Memory, L: Layout, segs: seq<Segment>, s: Spare, p: int, nb: nat)
    requires LayoutOk(L, segs, s) && Tagged(w, L, s.top) && Movable(L, segs, s, p, nb) && End(L, p) != s.top
    ensures var r, e := L[p].size + L[End(L, p)].size - nb, End(L, End(L, p));
      MoveWrites(w, ClearPinuse(FreeTags(SetInuse(w, p, nb), p + nb, r), e), L, p, nb, s.top)
  {
    hide Coalesced, AllContained, Based, SegmentsApart, MinSized, AllFollowed, Disjoint, Recorded, Feet, ClearPinuse,
      FreeTags, SetInuse, DvOk, TopOk;
    MovableFacts(L, segs, s, p, nb);
    var e := End(L, End(L, p));
    HeadFields(w, p, L[p]);
    HeadFields(w, e, L[e]);
    DvWrites(w, p, nb, L[p].size + L[End(L, p)].size - nb, e);
  }

  /** The stores of extending into dv, word by word. */
  lemma DvWrites(w: Memory, p: int, nb: nat, r: nat, e: int)
    requires p % 16 == 0 && nb % 16 == 0 && r % 16 == 0 && nb > 0 && r > 0 && e == p + nb + r
    requires Rd(w, HeadAt(e)) % 2 == 0
    ensures var w' := ClearPinuse(FreeTags(SetInuse(w, p, nb), p + nb, r), e);
      && Rd(w', HeadAt(p)) == Rd(w, HeadAt(p)) % 2 + nb + 2
      && Rd(w', HeadAt(p + nb)) == HeadWord(Chunk(r, false, true)) && Rd(w', FootAt(e)) == r
      && forall a :: a != HeadAt(p) && a != HeadAt(p + nb) && a != FootAt(e) ==> Rd(w', a) == Rd(w, a)
  {
    FootNotHead(p, nb + r, p, 0);
    FootNotHead(p, nb + r, p, nb);
  }

  /** p takes in the whole of the loose chunk after it. */
  method ExtendOver(m: MState, p: int, newsize: nat)
    requires p in m.L && End(m.L, p) in m.L && Loose(m, {End(m.L, p)}) && Joinable(m.L, m.segs, m.Spares(), p)
    requires newsize == m.L[p].size + m.L[End(m.L, p)].size
    modifies m`word, m`L
    ensures m.HeapValid() && Used(m.L) == (Used(old(m.L)) - {End(old(m.L), p)})[p := newsize]
    ensures PayloadSafe(old(m.word), m.word, old(m.L), m.segs)
    ensures p in m.L && m.L[p].size == newsize
  {
    hide Structured, Threaded, Mapped, LayoutOk, Tagged, Indexed, PayloadSafe, Used, SetInuse, Annexed, Fenced;
    ghost var w, L := m.word, m.L;
    JoinState(w, L, m.segs, m.Spares(), p, m.g);
    m.word := SetInuse(m.word, p, newsize);
    SafeEnds(w, m.word, L, L, m.segs, m.Spares());
    m.L := Annexed(L, p);
  }

  /** Use up dv, which follows p. */
  method ExhaustDv(m: MState, p: int, oldsize: nat)
    requires m.HeapValid() && p in m.L && m.L[p].inuse && !IsRecord(m.segs, p) && oldsize == m.L[p].size
    requires p + oldsize == m.dv && m.dv != 0
    modifies m`word, m`dv, m`dvsize, m`L
    ensures m.HeapValid() && Used(m.L) == Used(old(m.L))[p := oldsize + old(m.dvsize)] && m.dv == 0 && m.dvsize == 0
    ensures PayloadSafe(old(m.word), m.word, old(m.L), m.segs)
  {
    hide Structured, Threaded, Mapped, LayoutOk, Tagged, Indexed, PayloadSafe, Used;
    ghost var L, s := m.L, m.Spares();
    DvLoosened(L, m.segs, m.g.size, s);
    NotRecord(L, m.segs, s, m.dv);
    FreeNotUsed(L, m.dv);
    var dvs := m.dvsize;
    m.dvsize, m.dv := 0, 0;
    assert m.Spares() == s.(dv := 0, dvsize := 0);
    ExtendOver(m, p, oldsize + dvs);
    UsedWithout(Used(L), s.dv);
  }

  lemma NotRecord(L: Layout, segs: seq<Segment>, s: Spare, q: int)
    requires LayoutOk(L, segs, s) && q in L && !L[q].inuse
    ensures !IsRecord(segs, q) && q > 0
  {}

  lemma FreeNotUsed(L: Layout, q: int) requires q in L && !L[q].inuse ensures q !in Used(L) {}

  lemma UsedWithout(u: map<int, nat>, q: int) requires q !in u ensures u - {q} == u {}

  /** Extend into the free chunk after p; what p does not need is given back. */
  method ExtendIntoNext(m: MState, p: int, oldsize: nat, nb: nat, nextsize: nat) returns (n: nat)
    requires m.HeapValid() && p in m.L && m.L[p].inuse && !IsRecord(m.segs, p) && oldsize == m.L[p].size
    requires p + oldsize in m.L
    requires !m.L[p + oldsize].inuse && p + oldsize != m.dv && p + oldsize != m.top && nextsize == m.L[p + oldsize].size
    requires nb % 16 == 0 && MIN_CHUNK_SIZE <= nb <= oldsize + nextsize
    modifies m`word, m`smallmap, m`treemap, m`treebins, m`g, m`dv, m`dvsize, m`top, m`topsize, m`L
    ensures m.HeapValid() && PayloadsKept(old(m.word), m.word, old(m.L), m.L, m.segs)
    ensures nb <= n < nb + MIN_CHUNK_SIZE && Used(m.L) == Used(old(m.L))[p := n]
    ensures n == if oldsize + nextsize >= nb + MIN_CHUNK_SIZE then nb else oldsize + nextsize
  {
    hide Structured, Threaded, Mapped, LayoutOk, Tagged, Indexed, PayloadSafe, PayloadsKept, Used;
    ghost var w, L := m.word, m.L;
    var next := p + oldsize;
    NotRecord(L, m.segs, m.Spares(), next);
    BinnedFree(L, m.g.size, m.Spares(), next);
    FreeNotUsed(L, next);
    TakeOut(m, next, nextsize, {});
    assert {} + {next} == {next};
    ghost var w1 := m.word;
    var rsize := oldsize + nextsize - nb;
    ExtendOver(m, p, oldsize + nextsize);
    UsedWithout(Used(L), next);
    ghost var w2, L2 := m.word, m.L;
    SafeTrans(w, w1, w2, L, m.segs);
    UsedAt(L2, p);
    if rsize >= MIN_CHUNK_SIZE {
      GiveBackTail(m, p, nb, rsize);
      KeptGrown(w, w2, m.word, L, L2, m.L, m.segs, p, oldsize + nextsize, nb);
      n := nb;
    } else {
      KeptNow(w2, L2, m.segs);
      KeptGrown(w, w2, w2, L, L2, L2, m.segs, p, oldsize + nextsize, oldsize + nextsize);
      n := oldsize + nextsize;
    }
  }

  lemma UsedAt(L: Layout, p: int)
    requires p in Used(L)
    ensures p in L && L[p].inuse
  {}

  lemma KeptNow(w: Memory, L: Layout, segs: seq<Segment>) ensures PayloadsKept(w, w, L, L, segs) {}

  /** Growing writes no payload, and what is cut off afterwards was none before. */
  lemma KeptGrown(w: Memory, w1: Memory, w2: Memory, L: Layout, L1: Layout, L2: Layout, segs: seq<Segment>, p: int,
                  n: nat, n': nat)
    requires PayloadSafe(w, w1, L, segs) && PayloadsKept(w1, w2, L1, L2, segs)
    requires Used(L1) == Used(L)[p := n] && Used(L2) == Used(L1)[p := n'] && n' <= n
    ensures PayloadsKept(w, w2, L, L2, segs) && Used(L2) == Used(L)[p := n']
  {
    forall u, a | InPayload(L, u, a) && InPayload(L2, u, a) ensures Rd(w2, a) == Rd(w, a) {
      assert u in Used(L) && u in Used(L2) && u in Used(L1);
      assert InPayload(L1, u, a);
    }
  }

  /** What try_realloc_chunk knows about p and the chunk after it. */
  lemma ReallocFacts(w: Memory, L: Layout, segs: seq<Segment>, s: Spare, p: int, nb: nat)
    requires LayoutOk(L, segs, s) && Tagged(w, L, s.top) && p in L && L[p].inuse && !IsRecord(segs, p)
    requires nb % 16 == 0 && MIN_CHUNK_SIZE <= nb
    ensures End(L, p) in L && ChunkSize(w, p) == L[p].size && L[p].size % 16 == 0
    ensures Cinuse(w, End(L, p)) == L[End(L, p)].inuse && ChunkSize(w, End(L, p)) == L[End(L, p)].size && End(L, p) > 0
    ensures L[p].size >= nb + MIN_CHUNK_SIZE ==> Splittable(L, segs, p, nb)
    ensures End(L, p) == s.top ==> !L[End(L, p)].inuse && L[End(L, p)].size == s.topsize
    ensures End(L, p) == s.dv ==> !L[End(L, p)].inuse && L[End(L, p)].size == s.dvsize
  {
    hide Coalesced, AllContained, Based, SegmentsApart, MinSized, AllFollowed, Disjoint;
    HasNext(L, segs, s, p);
    HeadSays(w, L, s.top, p);
    HeadSays(w, L, s.top, End(L, p));
  }

  /** Chunk p can have nb bytes where it is: it has them, or the chunk after it is free and they have them together,
      where top must stay non-empty. */
  ghost predicate Growable(L: Layout, top: int, p: int, nb: nat) {
    && p in L
    && (|| nb <= L[p].size
        || (&& End(L, p) in L && !L[End(L, p)].inuse
            && var both := L[p].size + L[End(L, p)].size; if End(L, p) == top then nb < both else nb <= both))
  }

  /** The size it then has: what it needs, unless what is left of the two could not be a chunk. */
  ghost function SizeInPlace(L: Layout, top: int, p: int, nb: nat): nat requires Growable(L, top, p, nb) {
    var all := L[p].size + (if nb <= L[p].size then 0 else L[End(L, p)].size);
    if all >= nb + MIN_CHUNK_SIZE || (nb > L[p].size && End(L, p) == top) then nb else all
  }

  /** try_realloc_chunk for a chunk of a segment: n is its new size if it could be resized in place. */
  method TryReallocChunk(m: MState, p: int, nb: nat) returns (ok: bool, n: nat)
    requires m.HeapValid() && p in m.L && m.L[p].inuse && !IsRecord(m.segs, p) && nb % 16 == 0 && MIN_CHUNK_SIZE <= nb
    modifies m`word, m`smallmap, m`treemap, m`treebins, m`g, m`dv, m`dvsize, m`top, m`topsize, m`L
    ensures m.HeapValid() && PayloadsKept(old(m.word), m.word, old(m.L), m.L, m.segs)
    ensures ok <==> Growable(old(m.L), old(m.top), p, nb)
    ensures ok ==> nb <= n < nb + MIN_CHUNK_SIZE && Used(m.L) == Used(old(m.L))[p := n]
    ensures ok ==> n == SizeInPlace(old(m.L), old(m.top), p, nb)
    ensures ok && old(m.L[p].size) < nb && old(End(m.L, p)) == old(m.dv) ==>
      if n == nb < old(m.L[p].size + m.dvsize) then m.dv == p + nb && m.dvsize == old(m.L[p].size + m.dvsize) - nb
      else m.dv == 0 && m.dvsize == 0
    ensures !ok ==> m.L == old(m.L) && m.word == old(m.word) && m.Spares() == old(m.Spares())
  {
    hide Structured, Threaded, Mapped, LayoutOk, Tagged, Indexed, PayloadSafe, PayloadsKept, Used, Splittable, Movable;
    ghost var w, L := m.word, m.L;
    KeptNow(w, L, m.segs);
    ReallocFacts(w, L, m.segs, m.Spares(), p, nb);
    DvNotTop(L, m.segs, m.Spares());
    var oldsize := ChunkSize(m.word, p);
    var next := p + oldsize;
    ok, n := false, nb;
    if oldsize >= nb {
      var rsize := oldsize - nb;
      ok := true;
      if rsize >= MIN_CHUNK_SIZE {
        GiveBackTail(m, p, nb, rsize);
      } else {
        n := oldsize;
        UsedSame(L, p);
      }
    } else if next == m.top {
      if oldsize + m.topsize > nb {
        MovableThere(L, m.segs, m.Spares(), p, nb);
        ExtendIntoTop(m, p, oldsize, nb);
        SafeKept(w, m.word, L, m.L, m.segs);
        ok := true;
      }
    } else if next == m.dv {
      if oldsize + m.dvsize >= nb {
        var dsize := oldsize + m.dvsize - nb;
        if dsize >= MIN_CHUNK_SIZE {
          MovableThere(L, m.segs, m.Spares(), p, nb);
          ExtendIntoDv(m, p, oldsize, nb, dsize);
        } else {
          n := oldsize + m.dvsize;
          ExhaustDv(m, p, oldsize);
        }
        SafeKept(w, m.word, L, m.L, m.segs);
        ok := true;
      }
    } else if !Cinuse(m.word, next) {
      var nextsize := ChunkSize(m.word, next);
      if oldsize + nextsize >= nb {
        n := ExtendIntoNext(m, p, oldsize, nb, nextsize);
        ok := true;
      }
    }
  }

  lemma MovableThere(L: Layout, segs: seq<Segment>, s: Spare, p: int, nb: nat)
    requires p in L && L[p].inuse && !IsRecord(segs, p) && End(L, p) in L && !L[End(L, p)].inuse
    requires (End(L, p) == s.dv || End(L, p) == s.top)
    requires L[p].size < nb && nb % 16 == 0
    requires var r := L[p].size + L[End(L, p)].size - nb; if End(L, p) == s.top then r > 0 else r >= MIN_CHUNK_SIZE
    ensures Movable(L, segs, s, p, nb)
  {}

  lemma SafeKept(w: Memory, w': Memory, L: Layout, L': Layout, segs: seq<Segment>)
    requires PayloadSafe(w, w', L, segs)
    ensures PayloadsKept(w, w', L, L', segs)
  {}

  lemma UsedSame(L: Layout, p: int)
    requires p in L && L[p].inuse
    ensures Used(L) == Used(L)[p := L[p].size]
  {}

  // ------------------------------------------------------------- realloc

  /** Bytes of payload of chunk p. */
  ghost function Usable(L: Layout, mm: map<int, Region>, p: int): int requires p in L || p in mm
  { if p in mm then mm[p].base + mm[p].size - MMAP_FOOT_PAD - Mem(p) else L[p].size - 8 }

  /** The first words of the payload at p, n bytes of them, are now at q. */
  ghost predicate Carried(w: Memory, w': Memory, p: int, q: int, n: int)
  { forall i :: 0 <= i && 8 * i < n ==> Rd(w', Mem(q) + 8 * i) == Rd(w, Mem(p) + 8 * i) }

  /** mmap_resize without mremap: keep the chunk if it fits and does not waste more than two units. */
  predicate KeepsDirect(oldsize: nat, nb: nat, granularity: nat)
  { nb >= 256 && oldsize >= nb + 8 && oldsize - nb <= 2 * granularity }

  /** Whether realloc leaves the chunk where it is. */
  ghost predicate InPlace(L: Layout, mm: map<int, Region>, top: int, p: int, nb: nat, unit: nat) {
    if p in mm then
      var size := mm[p].base + mm[p].size - MMAP_FOOT_PAD - p;
      nb >= 256 && nb + 8 <= size <= nb + 2 * unit
    else Growable(L, top, p, nb)
  }

  /** Resized in place, a directly mapped chunk is as it was, and one of a segment alone has changed its size. */
  ghost predicate SameBut(L: Layout, L': Layout, segs: seq<Segment>, mm: map<int, Region>, top: int, p: int, nb: nat) {
    if p in mm then L' == L
    else Growable(L, top, p, nb) && Live(L', segs) == Live(L, segs)[p := SizeInPlace(L, top, p, nb)]
  }

  method ReallocInPlace(m: MState, p: int, bytes: nat) returns (ok: bool)
    requires m.Valid() && bytes < MAX_REQUEST && (p in Live(m.L, m.segs) || p in m.mm)
    modifies m`word, m`smallmap, m`treemap, m`treebins, m`g, m`dv, m`dvsize, m`top, m`topsize, m`L
    ensures m.Valid()
    ensures ok <==> InPlace(old(m.L), m.mm, old(m.top), p, Request2Size(bytes), m.mp.granularity)
    ensures ok && p !in m.mm ==>
      p in m.L && m.L[p].size == SizeInPlace(old(m.L), old(m.top), p, Request2Size(bytes))
    ensures !ok ==> m.L == old(m.L) && m.word == old(m.word) && m.Spares() == old(m.Spares())
    ensures ok && p in m.mm ==> m.L == old(m.L) && m.word == old(m.word) && bytes <= Usable(m.L, m.mm, p)
    ensures ok && p !in m.mm ==>
      && p in Live(m.L, m.segs) && bytes <= Usable(m.L, m.mm, p)
      && Live(m.L, m.segs) == Live(old(m.L), m.segs)[p := m.L[p].size]
    ensures ok ==>
      && Carried(old(m.word), m.word, p, p,
                 if Usable(old(m.L), m.mm, p) < bytes then Usable(old(m.L), m.mm, p) else bytes)
      && KeptBut(old(m.word), m.word, old(m.L), m.segs, m.mm, m.L, m.segs, m.mm, p)
  {
    hide MState.HeapValid, BooksOk, PayloadsKept, ParamsOk, Used, Live, KeptBut, Carried, ReallocCheck, Request2Size,
      Growable, SizeInPlace;
    ghost var w, L := m.word, m.L;
    KeptStill(w, L, m.segs, m.mm, p);
    CarriedStill(w, p);
    var nb := Request2Size(bytes);
    RequestFits(bytes);
    HeadTells(m, p);
    LiveIs(m, p);
    assert ReallocCheck(m.word, m.least, p) by { ChecksPass(m, p); }
    if Rd(m.word, HeadAt(p)) % 4 == 0 {
      DirectSize(m, p);
      ok := KeepsDirect(ChunkSize(m.word, p), nb, m.mp.granularity);
    } else {
      var n;
      ok, n := TryReallocChunk(m, p, nb);
      if ok {
        KeptBooks(w, m.word, m.os.mapped, L, m.L, m.segs, m.mm, m.mp.page, m.least);
        InPlaceLive(L, m.L, m.segs, p, n);
        InPlaceKept(w, m.word, L, m.L, m.segs, m.mm, p, n, bytes);
      }
    }
  }

  lemma KeptBooks(w: Memory, w': Memory, mapped: set<int>, L: Layout, L': Layout, segs: seq<Segment>, mm: map<int,
                  Region>, page: nat, least: int)
    requires BooksOk(w, mapped, segs, mm, page, least) && PayloadsKept(w, w', L, L', segs)
    ensures BooksOk(w', mapped, segs, mm, page, least)
    ensures forall q, a :: InMappedPayload(mm, q, a) ==> Rd(w', a) == Rd(w, a)
  {
    LocalKeepsMapped(w, w', segs, mm);
  }

  lemma InPlaceLive(L: Layout, L': Layout, segs: seq<Segment>, p: int, n: nat)
    requires p in L && L[p].inuse && !IsRecord(segs, p) && Used(L') == Used(L)[p := n]
    ensures p in L' && L'[p].inuse && L'[p].size == n && p in Live(L', segs) && Live(L', segs) == Live(L, segs)[p := n]
  {
    assert p in Used(L') && Used(L')[p] == n;
    assert forall q :: q in L && L[q].inuse <==> q in Used(L);
    assert forall q :: q in L' && L'[q].inuse <==> q in Used(L');
  }

  lemma InPlaceKept(w: Memory, w': Memory, L: Layout, L': Layout, segs: seq<Segment>, mm: map<int, Region>, p: int,
                    n: nat, bytes: nat)
    requires p in L && L[p].inuse && p in L' && L'[p].inuse && L'[p].size == n && bytes + 8 <= n && p !in mm
    requires Used(L') == Used(L)[p := n] && PayloadsKept(w, w', L, L', segs)
    requires forall q, a :: InMappedPayload(mm, q, a) ==> Rd(w', a) == Rd(w, a)
    ensures Carried(w, w', p, p, if L[p].size - 8 < bytes then L[p].size - 8 else bytes)
    ensures KeptBut(w, w', L, segs, mm, L', segs, mm, p)
  {
    var c := if L[p].size - 8 < bytes then L[p].size - 8 else bytes;
    forall i | 0 <= i && 8 * i < c ensures Rd(w', Mem(p) + 8 * i) == Rd(w, Mem(p) + 8 * i) {
      assert InPayload(L, p, Mem(p) + 8 * i) && InPayload(L', p, Mem(p) + 8 * i);
    }
    forall u, a | u != p && Has(L, segs, mm, u, a) ensures Has(L', segs, mm, u, a) && Rd(w', a) == Rd(w, a) {
      if u in Live(L, segs) && InPayload(L, u, a) {
        assert u in Used(L) && u in Used(L') && Used(L')[u] == Used(L)[u];
        assert InPayload(L', u, a);
      }
    }
  }

  lemma CarriedStill(w: Memory, p: int) ensures forall n :: Carried(w, w, p, p, n) {}

  lemma LiveIs(m: MState, p: int)
    requires m.Valid() && (p in Live(m.L, m.segs) || p in m.mm)
    ensures p !in m.mm ==> p in m.L && m.L[p].inuse && !IsRecord(m.segs, p)
  {}

  lemma DirectSize(m: MState, p: int)
    requires m.Valid() && p in m.mm
    ensures ChunkSize(m.word, p) == Usable(m.L, m.mm, p) + 16 >= 32
  {
    hide MState.HeapValid;
    DirectWords(m.word, m.mm, p);
    assert MappedChunk(m.word, p, m.mm[p]);
  }

  /** Chunk p has at least n bytes of payload. */
  ghost predicate Room(L: Layout, segs: seq<Segment>, mm: map<int, Region>, p: int, n: int)
  {
    if p in mm then Mem(p) + n <= mm[p].base + mm[p].size - MMAP_FOOT_PAD
    else p in Live(L, segs) && n + 8 <= Live(L, segs)[p]
  }

  lemma RoomHas(L: Layout, segs: seq<Segment>, mm: map<int, Region>, p: int, n: int, a: int)
    requires Room(L, segs, mm, p, n) && Mem(p) <= a < Mem(p) + n
    ensures Has(L, segs, mm, p, a)
  {
    HasSize(L, segs, p, a);
  }

  lemma RoomsApart(w: Memory, mapped: set<int>, L: Layout, segs: seq<Segment>, s: Spare, mm: map<int, Region>,
                   page: nat, least: int, p: int, q: int, n: nat)
    requires LayoutOk(L, segs, s) && BooksOk(w, mapped, segs, mm, page, least)
    requires Room(L, segs, mm, p, n) && Room(L, segs, mm, q, n) && p != q
    ensures Mem(p) + n <= Mem(q) || Mem(q) + n <= Mem(p)
  {
    hide Coalesced, MinSized, Recorded, AllFollowed, Based, Accounted, Paged, Bounded;
    if p in mm && q in mm {
      assert MappedChunk(w, p, mm[p]) && MappedChunk(w, q, mm[q]);
    } else if p !in mm && q !in mm {
      assert ChunksApart(L, p, q);
    } else {
      var x, y := if p in mm then p else q, if p in mm then q else p;
      assert MappedChunk(w, x, mm[x]) && Contained(segs, y, End(L, y));
      var k: nat :| Within(segs, k, y, End(L, y));
      Bounds(segs, k);
      assert Beside(mm[x].base, mm[x].size, segs[k].base, segs[k].size);
    }
  }

  /** memcpy from one chunk to another, both with room for it. */
  method CopyPayload(m: MState, p: int, q: int, count: nat)
    requires m.Valid() && p != q && Room(m.L, m.segs, m.mm, p, 8 * count) && Room(m.L, m.segs, m.mm, q, 8 * count)
    modifies m`word
    ensures m.Valid() && Carried(old(m.word), m.word, q, p, 8 * count)
    ensures KeptBut(old(m.word), m.word, m.L, m.segs, m.mm, m.L, m.segs, m.mm, p)
  {
    hide Structured, Threaded, Mapped, LayoutOk, Tagged, Indexed, BooksOk, Room, KeptBut, ClientWrote, Fenced;
    ghost var w := m.word;
    RoomsApart(w, m.os.mapped, m.L, m.segs, m.Spares(), m.mm, m.mp.page, m.least, p, q, 8 * count);
    CopyWords(m, Mem(p), Mem(q), count);
    CopyOwned(w, m.word, m.os.mapped, m.L, m.segs, m.Spares(), m.mm, m.mp.page, m.least, p, 8 * count);
    ClientsHarmless(w, m.word, m.os.mapped, m.L, m.segs, m.Spares(), m.g, m.mm, m.mp.page, m.least);
  }

  lemma CopyOwned(w: Memory, w': Memory, mapped: set<int>, L: Layout, segs: seq<Segment>, s: Spare, mm: map<int,
                  Region>, page: nat, least: int, p: int, n: nat)
    requires LayoutOk(L, segs, s) && BooksOk(w, mapped, segs, mm, page, least) && Room(L, segs, mm, p, n)
    requires forall a :: Rd(w', a) != Rd(w, a) ==> Mem(p) <= a < Mem(p) + n
    ensures ClientWrote(w, w', L, mm) && KeptBut(w, w', L, segs, mm, L, segs, mm, p)
  {
    hide LayoutOk, BooksOk, Room;
    forall a | Rd(w', a) != Rd(w, a) ensures Owned(L, mm, a) {
      RoomHas(L, segs, mm, p, n, a);
      assert InPayload(L, p, a) || InMappedPayload(mm, p, a);
    }
    forall q, a | q != p && Has(L, segs, mm, q, a) ensures Rd(w', a) == Rd(w, a) {
      if Rd(w', a) != Rd(w, a) {
        RoomHas(L, segs, mm, p, n, a);
        HoldersDiffer(w, mapped, L, segs, s, mm, page, least, p, q, a);
      }
    }
  }

  lemma HoldersDiffer(w: Memory, mapped: set<int>, L: Layout, segs: seq<Segment>, s: Spare, mm: map<int, Region>,
                      page: nat, least: int, p: int, q: int, a: int)
    requires LayoutOk(L, segs, s) && BooksOk(w, mapped, segs, mm, page, least) && Has(L, segs, mm, p, a)
    requires Has(L, segs, mm, q, a)
    ensures p == q
  {
    hide Coalesced, MinSized, Recorded, AllFollowed, Based, Accounted, Paged, Bounded, AllContained, Disjoint,
      SegmentsApart;
    PayloadsDisjoint(L, segs, w, mm, a);
  }

  /** The words that hold so many bytes. */
  function WordsFor(bytes: nat): nat { (bytes + 7) / 8 }

  lemma RequestRoom(L: Layout, segs: seq<Segment>, mm: map<int, Region>, p: int, bytes: nat, c: nat)
    requires bytes < MAX_REQUEST && c <= bytes && Room(L, segs, mm, p, Request2Size(bytes) - 8)
    ensures Room(L, segs, mm, p, 8 * WordsFor(c))
  {
    hide Request2Size, WordsFor;
    RequestFits(bytes);
    Whole16(Request2Size(bytes));
    RoundedUp(c, Request2Size(bytes) - 8);
  }

  /** The copying in realloc: the old contents as far as both chunks go. */
  method CopyOver(m: MState, p: int, q: int, bytes: nat) returns (ghost c: nat)
    requires m.Valid() && p != q && bytes < MAX_REQUEST && Room(m.L, m.segs, m.mm, p, Request2Size(bytes) - 8)
    requires q in Live(m.L, m.segs) || q in m.mm
    modifies m`word
    ensures m.Valid() && (q in m.mm || q in m.L) && c == Least(Usable(m.L, m.mm, q), bytes)
    ensures Carried(old(m.word), m.word, q, p, c)
    ensures KeptBut(old(m.word), m.word, m.L, m.segs, m.mm, m.L, m.segs, m.mm, p)
  {
    hide MState.HeapValid, BooksOk, ParamsOk, Live, KeptBut, Room, Carried, ChunkSize, Request2Size, Usable, WordsFor;
    HeadTells(m, q);
    UsableWhole(m, q);
    var oc := ChunkSize(m.word, q) - (if Rd(m.word, HeadAt(q)) % 4 == 0 then 16 else 8);
    var copied := if oc < bytes then oc else bytes;
    var count := WordsFor(copied);
    RoundedUp(copied, oc);
    RequestRoom(m.L, m.segs, m.mm, p, bytes, copied);
    RoomLess(m.L, m.segs, m.mm, q, oc, 8 * count);
    ghost var w := m.word;
    CopyPayload(m, p, q, count);
    CarriedLess(w, m.word, q, p, 8 * count, copied);
    c := copied;
  }

  lemma CarriedLess(w: Memory, w': Memory, p: int, q: int, n: int, n': int)
    requires Carried(w, w', p, q, n) && n' <= n
    ensures Carried(w, w', p, q, n')
  {}

  /** Chunk p has made way for chunk q and no other chunk has come or gone; a refused unmapping leaves p there. */
  ghost predicate MovedTo(live: map<int, nat>, live': map<int, nat>, mm: map<int, Region>, mm': map<int, Region>,
                          p: int,
                          q: int, nb: nat, refused: bool) {
    && p != q && p !in live' && q !in live && q !in mm && Gained(live - {p}, live', mm - {p}, mm' - {p}, q, nb)
    && (p in mm' ==> refused && p in mm && mm'[p] == mm[p])
  }

  lemma MovedBy(live: map<int, nat>, live1: map<int, nat>, live': map<int, nat>, mm: map<int, Region>,
                mm1: map<int, Region>, mm': map<int, Region>, p: int, q: int, nb: nat, refused: bool)
    requires Gained(live, live1, mm, mm1, q, nb) && p != q && q !in live && q !in mm && p !in live'
    requires live' == live1 - {p} && (mm' == mm1 - {p} || (mm' == mm1 && (p in mm1 ==> refused)))
    ensures MovedTo(live, live', mm, mm', p, q, nb, refused)
  {
    assert mm1 - {p} == mm' - {p};
    if q in mm1 {
      assert (mm - {p})[q := mm1[q]] == mm1 - {p} && live - {p} == live';
    } else {
      assert (live - {p})[q := live1[q]] == live1 - {p} && mm - {p} == mm1 - {p};
    }
  }

  /** The move in realloc: a new chunk, the contents, and the old chunk freed. */
  method ReallocMove(m: MState, q: int, bytes: nat) returns (mem: int)
    requires m.Valid() && bytes < MAX_REQUEST && (q in Live(m.L, m.segs) || q in m.mm)
    modifies m`least, m`segs, m`releaseChecks, m`word, m`top, m`topsize, m`dv, m`dvsize, m`trimCheck, m`footprint
    modifies m`maxFootprint
    modifies m`L, m`smallmap, m`treemap, m`treebins, m`g, m`mm, m.os
    ensures m.Valid()
    ensures mem == 0 ==> m.L == old(m.L) && m.segs == old(m.segs) && m.mm == old(m.mm) && m.word == old(m.word)
    ensures mem == 0 ==>
      Barred(m.mp, m.footprint, m.footprintLimit, Padded(bytes)) || m.os.refusals > old(m.os.refusals)
    ensures mem != 0 ==>
      && mem - 16 != q && Room(m.L, m.segs, m.mm, mem - 16, bytes)
      && Carried(old(m.word), m.word, q, mem - 16, Least(old(Usable(m.L, m.mm, q)), bytes))
      && KeptBut(old(m.word), m.word, old(m.L), old(m.segs), old(m.mm), m.L, m.segs, m.mm, q)
      && MovedTo(Live(old(m.L), old(m.segs)), Live(m.L, m.segs), old(m.mm), m.mm, q, mem - 16, Padded(bytes),
                 m.os.kept > old(m.os.kept))
    ensures Heeded(old(m.footprint), m.footprint, m.footprintLimit)
  {
    hide MState.HeapValid, MState.BooksValid, BooksOk, ParamsOk, Live, KeptBut, KeptAll, Gained, Room, Carried,
      Request2Size, Padded, MallocedChunkOk, NothingFits, Barred, Findable, ByPolicy, MovedTo, GrantSized, Usable,
      TrimmedAfter, LargeBinned, CountedDown, Peak;
    ghost var w, L, segs, mm := m.word, m.L, m.segs, m.mm;
    UsableWhole(m, q);
    mem := DlMalloc(m, bytes);
    if mem != 0 {
      ghost var w1, L1, segs1, mm1 := m.word, m.L, m.segs, m.mm;
      var p := mem - 16;
      GainedRoom(m, L, segs, mm, p, q, bytes);
      ghost var c := CopyOver(m, p, q, bytes);
      ghost var w2 := m.word;
      RoomLess(L, segs, mm, q, Usable(L, mm, q), c);
      RoomLess(L1, segs1, mm1, p, bytes, c);
      if q in Live(m.L, m.segs) { LiveNotDirect(m, q); }
      DlFree(m, Mem(q));
      RoomAfter(L1, segs1, mm1, m.L, m.segs, m.mm, p, q, bytes);
      MovedThere(w, w1, w2, m.word, L, segs, mm, L1, segs1, mm1, m.L, m.segs, m.mm, p, q, c);
      MovedBy(Live(L, segs), Live(L1, segs1), Live(m.L, m.segs), mm, mm1, m.mm, q, p, Padded(bytes),
              m.os.kept > old(m.os.kept));
    }
  }

  /** A payload is a whole number of words. */
  lemma UsableWhole(m: MState, q: int)
    requires m.Valid() && (q in Live(m.L, m.segs) || q in m.mm)
    ensures (q in m.mm || q in m.L) && q > 0
    ensures var u := Usable(m.L, m.mm, q); u >= 0 && u % 8 == 0 && Room(m.L, m.segs, m.mm, q, u)
    ensures ChunkSize(m.word, q) == Usable(m.L, m.mm, q) + (if q in m.mm then 16 else 8)
  {
    hide MState.HeapValid, BooksOk, Live, Room, ChunkSize;
    HeadTells(m, q);
    LiveSize(m.L, m.segs);
    if q in m.mm {
      DirectSize(m, q);
      DirectUsable(m, q);
    } else {
      HeapUsable(m, q);
    }
  }

  lemma DirectUsable(m: MState, q: int)
    requires m.Valid() && q in m.mm
    ensures q > 0 && Usable(m.L, m.mm, q) % 8 == 0 && Room(m.L, m.segs, m.mm, q, Usable(m.L, m.mm, q))
  {
    hide MState.HeapValid;
    assert MappedChunk(m.word, q, m.mm[q]);
    Whole8(m.mm[q].base + m.mm[q].size, q);
  }

  lemma Whole8(x: int, y: int)
    requires x % 16 == 0 && y % 16 == 0
    ensures (x - MMAP_FOOT_PAD - Mem(y)) % 8 == 0
  {}

  lemma HeapUsable(m: MState, q: int)
    requires m.Valid() && q in Live(m.L, m.segs) && q !in m.mm
    ensures q > 0 && Usable(m.L, m.mm, q) % 8 == 0 && Usable(m.L, m.mm, q) >= 0
    ensures Room(m.L, m.segs, m.mm, q, Usable(m.L, m.mm, q))
  {
    hide MState.BinsValid, Indexed, Tagged, Coalesced, AllContained, AllFollowed, Based, Recorded, BooksOk;
    Whole16(m.L[q].size);
  }

  lemma Whole16(n: int)
    requires n % 16 == 0 && n > 0
    ensures (n - 8) % 8 == 0 && n >= 8
  {}

  lemma GainedRoom(m: MState, L: Layout, segs: seq<Segment>, mm: map<int, Region>, p: int, q: int, bytes: nat)
    requires m.Valid() && bytes < MAX_REQUEST && Gained(Live(L, segs), Live(m.L, m.segs), mm, m.mm, p, Padded(bytes))
    requires q in Live(L, segs) || q in mm
    ensures p != q && (q in Live(m.L, m.segs) || q in m.mm) && (q in mm <==> q in m.mm)
    ensures (q in mm ==> m.mm[q] == mm[q])
    ensures q !in mm ==> q in Live(L, segs) && q in Live(m.L, m.segs) && Live(m.L, m.segs)[q] == Live(L, segs)[q]
    ensures Room(m.L, m.segs, m.mm, p, Request2Size(bytes) - 8) && Room(m.L, m.segs, m.mm, p, bytes)
    ensures p !in Live(L, segs) && p !in mm && (q in mm || (q in L && q in m.L))
    ensures Usable(m.L, m.mm, q) == Usable(L, mm, q)
  {
    hide MState.HeapValid, BooksOk, Live;
    LiveSize(L, segs);
    LiveSize(m.L, m.segs);
    RequestFits(bytes);
    if q in Live(m.L, m.segs) { LiveNotDirect(m, q); }
    if p in Live(m.L, m.segs) { LiveNotDirect(m, p); }
  }

  lemma RoomLess(L: Layout, segs: seq<Segment>, mm: map<int, Region>, p: int, n: int, n': int)
    requires Room(L, segs, mm, p, n) && n' <= n
    ensures Room(L, segs, mm, p, n')
  {}

  lemma RoomAfter(L: Layout, segs: seq<Segment>, mm: map<int, Region>, L': Layout, segs': seq<Segment>, mm': map<int,
                  Region>, p: int, q: int, n: int)
    requires Room(L, segs, mm, p, n) && p != q
    requires Live(L', segs') == Live(L, segs) || Live(L', segs') == Live(L, segs) - {q}
    requires mm' == mm || mm' == mm - {q}
    ensures Room(L', segs', mm', p, n)
  {}

  lemma MovedThere(w: Memory, w1: Memory, w2: Memory, w3: Memory, L: Layout, segs: seq<Segment>, mm: map<int, Region>,
                   L1: Layout, segs1: seq<Segment>, mm1: map<int, Region>,
                   L3: Layout, segs3: seq<Segment>, mm3: map<int, Region>,
                   p: int, q: int, c: nat)
    requires KeptAll(w, w1, L, segs, mm, L1, segs1, mm1) && KeptBut(w1, w2, L1, segs1, mm1, L1, segs1, mm1, p)
    requires KeptBut(w2, w3, L1, segs1, mm1, L3, segs3, mm3, q) && Carried(w1, w2, q, p, c) && p != q
    requires Room(L1, segs1, mm1, p, c) && Room(L, segs, mm, q, c) && p !in Live(L, segs) && p !in mm
    ensures Carried(w, w3, q, p, c) && KeptBut(w, w3, L, segs, mm, L3, segs3, mm3, q)
  {
    forall i | 0 <= i && 8 * i < c ensures Rd(w3, Mem(p) + 8 * i) == Rd(w, Mem(q) + 8 * i) {
      RoomHas(L, segs, mm, q, c, Mem(q) + 8 * i);
      RoomHas(L1, segs1, mm1, p, c, Mem(p) + 8 * i);
    }
  }

  function Least(x: int, y: int): int { if x < y then x else y }

  lemma LiveSize(L: Layout, segs: seq<Segment>)
    ensures forall q :: q in Live(L, segs) ==> q in L && Live(L, segs)[q] == L[q].size
  {}

  lemma RoundedUp(c: nat, n: nat)
    requires c <= n && n % 8 == 0
    ensures c <= 8 * WordsFor(c) <= n
  {
    assert n == 8 * (n / 8) && c + 7 == 8 * WordsFor(c) + (c + 7) % 8;
  }

  lemma SizedThere(L: Layout, L': Layout, segs: seq<Segment>, mm: map<int, Region>, top: int, p: int, nb: nat,
                   unit: nat)
    requires (p in mm || p in L) && InPlace(L, mm, top, p, nb, unit)
    requires p in mm ==> L' == L
    requires p !in mm ==>
      p in L' && L'[p].size == SizeInPlace(L, top, p, nb) && Live(L', segs) == Live(L, segs)[p := L'[p].size]
    ensures SameBut(L, L', segs, mm, top, p, nb)
  {}

  /** realloc of a chunk: where it is, or else by moving it. */
  method ReallocChunk(m: MState, q: int, bytes: nat) returns (mem: int)
    requires m.Valid() && bytes < MAX_REQUEST && (q in Live(m.L, m.segs) || q in m.mm)
    modifies m`least, m`segs, m`releaseChecks, m`word, m`top, m`topsize, m`dv, m`dvsize, m`trimCheck, m`footprint
    modifies m`maxFootprint
    modifies m`L, m`smallmap, m`treemap, m`treebins, m`g, m`mm, m.os
    ensures m.Valid()
    ensures mem == 0 ==> m.L == old(m.L) && m.segs == old(m.segs) && m.mm == old(m.mm) && m.word == old(m.word)
    ensures mem == 0 ==>
      Barred(m.mp, m.footprint, m.footprintLimit, Padded(bytes)) || m.os.refusals > old(m.os.refusals)
    ensures mem != 0 ==>
      && Room(m.L, m.segs, m.mm, mem - 16, bytes)
      && Carried(old(m.word), m.word, q, mem - 16, Least(old(Usable(m.L, m.mm, q)), bytes))
      && KeptBut(old(m.word), m.word, old(m.L), old(m.segs), old(m.mm), m.L, m.segs, m.mm, q)
      && (mem - 16 != q ==>
            MovedTo(Live(old(m.L), old(m.segs)), Live(m.L, m.segs), old(m.mm), m.mm, q, mem - 16, Padded(bytes),
                    m.os.kept > old(m.os.kept)))
    ensures InPlace(old(m.L), old(m.mm), old(m.top), q, Request2Size(bytes), m.mp.granularity) <==> mem == Mem(q) != 0
    ensures mem == Mem(q) != 0 ==>
      && m.os.mapped == old(m.os.mapped) && m.os.refusals == old(m.os.refusals) && m.footprint == old(m.footprint)
      && m.segs == old(m.segs) && m.mm == old(m.mm)
      && SameBut(old(m.L), m.L, m.segs, m.mm, old(m.top), q, Request2Size(bytes))
    ensures Heeded(old(m.footprint), m.footprint, m.footprintLimit)
  {
    hide MState.HeapValid, BooksOk, ParamsOk, Live, KeptBut, Room, Carried, Padded, Barred, InPlace, SizeInPlace,
      Request2Size, MovedTo;
    UsableWhole(m, q);
    ghost var L, top := m.L, m.top;
    var ok := ReallocInPlace(m, q, bytes);
    if ok {
      SizedThere(L, m.L, m.segs, m.mm, top, q, Request2Size(bytes), m.mp.granularity);
      LiveSize(m.L, m.segs);
      UsableRoom(m, q, bytes);
      mem := Mem(q);
    } else {
      mem := ReallocMove(m, q, bytes);
    }
  }

  lemma TooBig(m: MState, bytes: nat)
    requires m.Valid()
    ensures bytes >= MAX_REQUEST ==> Barred(m.mp, m.footprint, m.footprintLimit, Padded(bytes))
  {}

  /** realloc. The first bytes of the old payload, up to the smaller of both sizes, are in the new one; every other
      payload is untouched; on failure nothing changes and the old chunk stays. */
  method DlRealloc(m: MState, oldmem: int, bytes: nat) returns (mem: int)
    requires m.Valid() && bytes < LIMIT && (oldmem == 0 || oldmem - 16 in Live(m.L, m.segs) || oldmem - 16 in m.mm)
    modifies m`least, m`segs, m`releaseChecks, m`word, m`top, m`topsize, m`dv, m`dvsize, m`trimCheck, m`footprint
    modifies m`maxFootprint
    modifies m`L, m`smallmap, m`treemap, m`treebins, m`g, m`mm, m.os
    ensures m.Valid()
    ensures mem == 0 ==> m.L == old(m.L) && m.segs == old(m.segs) && m.mm == old(m.mm) && m.word == old(m.word)
    ensures mem == 0 ==>
      Barred(m.mp, m.footprint, m.footprintLimit, Padded(bytes)) || m.os.refusals > old(m.os.refusals)
    ensures mem != 0 ==> bytes < MAX_REQUEST && Room(m.L, m.segs, m.mm, mem - 16, bytes)
    ensures mem != 0 && oldmem == 0 ==>
      && Gained(Live(old(m.L), old(m.segs)), Live(m.L, m.segs), old(m.mm), m.mm, mem - 16, Padded(bytes))
      && KeptAll(old(m.word), m.word, old(m.L), old(m.segs), old(m.mm), m.L, m.segs, m.mm)
    ensures mem != 0 && oldmem != 0 ==>
      && (oldmem - 16 in old(m.mm) || oldmem - 16 in old(m.L))
      && Carried(old(m.word), m.word, oldmem - 16, mem - 16, Least(old(Usable(m.L, m.mm, oldmem - 16)), bytes))
      && KeptBut(old(m.word), m.word, old(m.L), old(m.segs), old(m.mm), m.L, m.segs, m.mm, oldmem - 16)
      && (mem != oldmem ==>
            MovedTo(Live(old(m.L), old(m.segs)), Live(m.L, m.segs), old(m.mm), m.mm, oldmem - 16, mem - 16,
                    Padded(bytes), m.os.kept > old(m.os.kept)))
    ensures oldmem != 0 && bytes < MAX_REQUEST ==>
      && (mem == oldmem <==>
            InPlace(old(m.L), old(m.mm), old(m.top), oldmem - 16, Request2Size(bytes), m.mp.granularity))
      && (mem == oldmem ==>
            && m.os.mapped == old(m.os.mapped) && m.os.refusals == old(m.os.refusals)
            && m.footprint == old(m.footprint) && m.segs == old(m.segs) && m.mm == old(m.mm)
            && SameBut(old(m.L), m.L, m.segs, m.mm, old(m.top), oldmem - 16, Request2Size(bytes)))
    ensures Heeded(old(m.footprint), m.footprint, m.footprintLimit)
  {
    hide MState.HeapValid, BooksOk, ParamsOk, Live, KeptBut, KeptAll, Gained, Room, Carried, Padded, MallocedChunkOk,
      NothingFits, Barred, Findable, ByPolicy, MovedTo, SameBut, InPlace, GrantSized;
    TooBig(m, bytes);
    mem := 0;
    if oldmem == 0 {
      ghost var L, segs, mm := m.L, m.segs, m.mm;
      mem := DlMalloc(m, bytes);
      if mem != 0 {
        RequestFits(bytes);
        NewRoom(m, L, segs, mm, mem - 16, bytes);
      }
    } else if bytes < MAX_REQUEST {
      UsableWhole(m, oldmem - 16);
      mem := ReallocChunk(m, oldmem - 16, bytes);
    }
  }

  lemma NewRoom(m: MState, L: Layout, segs: seq<Segment>, mm: map<int, Region>, p: int, bytes: nat)
    requires bytes < MAX_REQUEST && Gained(Live(L, segs), Live(m.L, m.segs), mm, m.mm, p, Padded(bytes))
    ensures Room(m.L, m.segs, m.mm, p, bytes)
  {
    RequestFits(bytes);
  }

  lemma UsableRoom(m: MState, q: int, n: int)
    requires (q in m.mm || q in Live(m.L, m.segs)) && (q in m.mm || q in m.L) && n <= Usable(m.L, m.mm, q)
    ensures Room(m.L, m.segs, m.mm, q, n)
  {}
}
